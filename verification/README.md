# Ripple: a verified model of the delay-tolerant mesh

Ripple carries messages between phones that are rarely in contact. A message is copied from node to
node, every copy spends hops, and nobody sees the whole network. This project models the parts of
`go-daemon` whose correctness depends on many steps taken by many nodes, and proves what they keep.

**The simulator and its decision layer** (`Routing`, `MessageRun`, `TableLaws`, `MessageTheorems`,
`CopyFlow`, `Scenario`, `IdOrder`, `Simulator`). Per-node buffers with presence maps, message states
shared by all copies, contacts in both directions over snapshots, the sweep, PROPHET predictability.
`Simulator` runs the tick loop on mutable nodes and is proved, contact by contact, to follow a small
state machine per message (`MessageRun`). The theorems are about that machine and so about `Run`: copies
are conserved exactly, flooding is optimal on every schedule and delivers exactly what the contacts
connect, handovers climb, a budget of nodes - 1 is no budget, and leftover delivered copies never matter.

**The live relay** (`Mesh`, `MeshNode`, `Network`). `Mesh` says what a node does with a message as a
function of its state; `MeshNode` is the node object, whose methods are proved equal to it; `Network`
is any number of nodes with messages in flight and steps in any order: sends, arrivals, prunes of
either ledger, joins, leaves and losses. On top of it: `RelayTermination` (finitely many arrivals),
`CopyPotential` (at most 2^L nodes process an addressed message), `SprayTree` (that bound is attained
for every L), `BudgetClaim` (the documented bound L holds exactly for L = 1), `RelayPaths` (what every
relay path keeps), `RelayReports` (what a node reports), `FloodCoverage` and `FloodLimit` (whom a
flood must reach and whom it cannot), `RelayLaws` (what one node does with one message, in full).

**Emergency alerts** (`Sos`, `SosLifetime`, `SosTracking`). The manager's operations, the hour that an
alert lives at least where it is tracked, and the bound on how long it can live when dedup is pruned
and expired alerts are accepted again.

**The binary codec** (`Codec`). Printer and parser, framing, and the exact set of messages that
survive the round trip.

**Chunked files and keys** (`FileTransfer`, `KeyCache`). Reassembly from chunks in any order, and a
cache of derived keys that always agrees with the current public keys.

`Prelude` holds shared datatypes and a few facts about finite sets. `dafny verify dfyconfig.toml`
checks everything.

## Where the code and its descriptions differ

The model follows the code. Where a comment or a document says something else, the difference is a
theorem where that is possible.

- `sim.go:272` says the sweep removes delivered copies. The code keeps them. `Scenario.SweepOutcome`
  shows that no outcome depends on it.
- `routing.go:148-163` and `sim.go:331`: tick 0 is a legal delivery time and also the mark of an undelivered
  message. A delivery at tick 0 is lost (`MessageTheorems.TickZeroDeliveryIsLost`). Conservation, the
  bound of nodes - 1 copies and the agreement of large budgets with flooding hold exactly for messages
  created later (`MessageTheorems.ConservedExactlyAfterTickZero`, `BoundedExactlyAfterTickZero`,
  `AgreesExactlyAfterTickZero`), and for outcomes exactly when the first injection is after tick 0
  (`Scenario.OutcomesExactlyAfterTickZero`). That flooding is optimal holds in every run.
- `sim.go:42` calls the last injection tick inclusive. With more messages than ticks in the window the
  injections run past it (`Scenario.WindowRespectedExactly`; `Scenario.WindowOverrun` is an example).
- `sim.go:312-315` speaks of statistics from the start of the contact. They are read after both
  encounter updates, and so does the model.
- `routing.go:96-123`, `sim.go:356-364`: the transit gain is added to the record of the peer that was
  met, and a fresh record has no peer name, so no entry of the peer's table is skipped for it.
- `mesh.go:108-112` promises at most L physical copies of an addressed message. The copy count travels
  with each copy, so siblings count separately: `BudgetClaim.BudgetHoldsExactly` shows the promise
  holds exactly for L = 1, `CopyPotential.CopyBound` gives the bound that holds, 2^L - 1, and
  `SprayTree.BoundAttained` a network that reaches it.
- `mesh.go:122-131` reserves "forwarded" for messages a node relays onward and "sent" for its own. A
  routing node also reports forwards of its own message, on sending it, with no reception before them
  (`RelayReports.OwnMessageForwardedUnreceived`). `RelayReports.ForwardsFirstExactly` says exactly when;
  `RelayReports.GrammarExactly` shows that the reports follow the grammar of a relayed message if and
  only if the node does not send it itself.
- `codec.go:89` and `codec.go:179` say the payload is always written. An empty one is not, and then
  the timestamp is read as the payload. A string of exactly 255 bytes is written with the length byte
  that announces a long string. Both are outside `WireSafe`, and `Codec.RoundTripExactly` shows that
  nothing outside it survives; `Codec.EmptyPayloadUnreadable` is an example.
- `box.go:312-341` loads a keys file without touching the derived keys. `KeyCache.Manager.LoadKnownKeys`
  states when agreement survives, and `KeyCache.ReloadLosesAgreement` how it is lost.
- `box.go:416` slices 32 bytes from a decoded key that may be shorter. The slice expression reaches into
  the spare capacity behind the decoded bytes, and panics when there is too little.

## Model

| member | source | states |
|---|---|---|
| Routing.Decide | go-daemon/pkg/routing/routing.go:208-238 | which action is taken, as conditions on destination, copy held, budget and predictabilities; deliver comes before duplicate, duplicate before spray |
| Routing.StatCell.UpdatePredictabilityOnEncounter | go-daemon/pkg/routing/routing.go:61-63 | an encounter multiplies the distance to certainty by 1 - PInit |
| Routing.StatCell.AgePredictability | go-daemon/pkg/routing/routing.go:74-82 | the in-place aging computes the closed form, floor included |
| Routing.StatCell.RecordEncounter | go-daemon/pkg/routing/routing.go:99-123 | the loop over the peer's table, in whatever order the map is visited, gives the one value Encountered; the cap at MaxPredict changes nothing |
| Routing.FoldAnyOrder | go-daemon/pkg/routing/routing.go:107-122 | commuting updates over a set give the same result whichever element comes first |
| Routing.TransitCommutes | go-daemon/pkg/routing/routing.go:92-122 | the transit updates of two table entries commute |
| Routing.TransitIsGain | go-daemon/pkg/routing/routing.go:92-122 | an entry adds exactly the transit gain, never passes certainty, and never reaches it from below |
| Routing.EncounteredClosedForm | go-daemon/pkg/routing/routing.go:84-123 | after a meeting the distance to certainty is the old one times 1 - PInit times one factor per entry of the peer's table |
| Routing.EncounteredBounds | go-daemon/pkg/routing/routing.go:56-123 | a meeting never lowers a predictability, keeps it in [0,1], and below 1 if it started there |
| Routing.AgedCompose | go-daemon/pkg/routing/routing.go:74-82 | aging by a and then by b is aging by a + b, even with the floor |
| Routing.FastAgingRefinesLoop | go-daemon/pkg/routing/routing.go:65-82 | the power form equals the per-unit loop its comment replaces: scale by Gamma, drop below the floor |
| Routing.AgedDecreases | go-daemon/pkg/routing/routing.go:74-82 | any silence lowers a positive predictability |
| Routing.AgedAntitone | go-daemon/pkg/routing/routing.go:74-82 | a longer silence never leaves more |
| Routing.AgedForgets | go-daemon/pkg/routing/routing.go:74-82 | after 2048 units nothing is left of any predictability |
| MessageRun.PickPairCoversPairs | go-daemon/pkg/routing/sim/sim.go:429-436 | two draws give every ordered pair of different nodes, each from exactly one pair of draws |
| MessageRun.PredictabilitiesBelowOne | go-daemon/pkg/routing/sim/sim.go:236-270 | in every run every predictability lies in [0,1) |
| TableLaws.MeetingRaises | go-daemon/pkg/routing/sim/sim.go:356-364 | a meeting takes one entry three quarters of the way to certainty and on by a quarter of each chance the peer has, weighed by our own; no other entry changes |
| TableLaws.ContactRaises | go-daemon/pkg/routing/sim/sim.go:236-243 | a contact raises exactly the two entries of the nodes that met |
| TableLaws.TickTables | go-daemon/pkg/routing/sim/sim.go:229-270 | a whole tick: entries of pairs that met go up, all entries of a node that met nobody fade by 0.98 with the floor, everything else stays |
| TableLaws.RecordsAreMeetings | go-daemon/pkg/routing/sim/sim.go:356-364 | a node has a record of another exactly when the two have been in contact |
| MessageTheorems.OfferSound | go-daemon/pkg/routing/sim/sim.go:311-344 | one offered copy keeps conservation, budget, hop bound and delivery record |
| MessageTheorems.RunSound | go-daemon/pkg/routing/sim/sim.go:181-286 | at every tick of every run: holders number exactly the copies made (less one once delivered, none once swept), the destination holds none, copies stay within min(max(1,L), nodes-1), flooded copies have at most copies-1 hops, a delivery has latency in [0, max(TTL,0)] |
| MessageTheorems.TickZeroDeliveryIsLost | go-daemon/pkg/routing/sim/sim.go:328-333 | a delivery at tick 0 consumes the copy and still counts as undelivered |
| MessageTheorems.ConservedExactlyAfterTickZero | go-daemon/pkg/routing/sim/sim.go:197-211 | conservation over all forwarders, networks and schedules holds if and only if the message is created after tick 0 |
| MessageTheorems.DeliveryIsFinal | go-daemon/pkg/routing/sim/sim.go:311-333 | once delivered, nothing about a message ever changes: at most one delivery |
| MessageTheorems.FloodOptimal | go-daemon/pkg/routing/sim/sim.go:236-252 | two runs in lockstep, messages of tick 0 included: whatever any forwarder delivers, flooding has delivered no later; until then its holders include all the other's |
| MessageTheorems.LargeBudgetIsFlooding | go-daemon/pkg/routing/routing.go:203-238 | with a budget of at least nodes - 1 spray-and-wait and flooding agree on every message at every tick |
| MessageTheorems.TickZeroOvershoots | go-daemon/pkg/routing/sim/sim.go:328-336 | a concrete run of three nodes with a delivery lost at tick 0: flooding ends with three copies, a budget of two with two |
| MessageTheorems.AgreesExactlyAfterTickZero | go-daemon/pkg/routing/routing.go:203-238 | over all networks, schedules and budgets of at least nodes - 1, agreement with flooding holds if and only if the message is created after tick 0 |
| MessageTheorems.BoundedExactlyAfterTickZero | go-daemon/pkg/routing/sim/sim.go:328-336 | over all networks, schedules and forwarders, copies stay within nodes - 1 if and only if the message is created after tick 0 |
| MessageTheorems.SweepRefinement | go-daemon/pkg/routing/sim/sim.go:272-285 | discarding delivered copies in the sweep as well leaves every message with the same record |
| CopyFlow.MeetMoves | go-daemon/pkg/routing/sim/sim.go:311-344 | what a contact does with a copy, told from the tables: delivery with the holder's hops, nothing to a holder, a counted copy one hop on while the budget lasts, afterwards a handover exactly uphill |
| CopyFlow.HandsOverExactly | go-daemon/pkg/routing/routing.go:203-222 | with the budget spent, a copy moves to a fresh node if and only if that node has a record of the destination with a higher predictability |
| CopyFlow.HandoversClimb | go-daemon/pkg/routing/sim/sim.go:236-252 | in every run a node loses an undelivered copy only to the destination or, with the budget spent, to a fresh node of higher predictability that has met the destination, one hop on |
| CopyFlow.FloodIsReachability | go-daemon/pkg/routing/sim/sim.go:155-306 | flooding delivers a message if and only if contacts connect source to destination, one after the other, within its lifetime; until then its holders are exactly the nodes so connected |
| CopyFlow.DeliveredOnlyIfReachable | go-daemon/pkg/routing/sim/sim.go:155-306 | no forwarder delivers a message that the contacts do not connect to its destination in time |
| Scenario.InjectionTimes | go-daemon/pkg/routing/sim/sim.go:183-212 | the i-th message is created at the i-th multiple of the stride, none earlier, none skipped |
| Scenario.AllMessagesInjected | go-daemon/pkg/routing/sim/sim.go:183-212 | a run long enough injects exactly the configured number |
| Scenario.EvenlySpread | go-daemon/pkg/routing/sim/sim.go:183-191 | messages are injected at even distances, the largest that fits the window, from its start or the first tick on its grid |
| Scenario.SingleBirth | go-daemon/pkg/routing/sim/sim.go:183-191 | a single message is injected at the start of the window, or at once if that lies before the run |
| Scenario.LastAtTheEnd | go-daemon/pkg/routing/sim/sim.go:183-191 | with room for all messages the last one is injected within the last messages - 1 ticks of the window |
| Scenario.BirthsDrawn | go-daemon/pkg/routing/sim/sim.go:189-206 | each message goes from the node drawn at its tick to the one drawn among the others |
| Scenario.WindowRespectedExactly | go-daemon/pkg/routing/sim/sim.go:41-42 | all injections fall within the window if and only if the last one does; for a window that does not begin before the run, if and only if there are at most as many messages as ticks in it |
| Scenario.WindowOverrun | go-daemon/pkg/routing/sim/sim.go:183-212 | five messages in a window of two ticks: the last three are injected after it |
| Scenario.TracksNext | go-daemon/pkg/routing/sim/sim.go:189-286 | a tick of the whole simulator is a tick of every message's own machine, plus the injected message |
| Scenario.OutcomeSound | go-daemon/pkg/routing/sim/sim.go:288-305 | when the first injection is after tick 0: latencies and hops are one per delivered message; delivered <= total <= copies <= total times the copy bound; every latency is in [0, max(TTL,0)] |
| Scenario.CopiesAccountedFor | go-daemon/pkg/routing/sim/sim.go:288-304 | every copy counted in an outcome is still held, was delivered, or was swept undelivered |
| Scenario.OutcomeLists | go-daemon/pkg/routing/sim/sim.go:296-304 | the lists hold, for exactly the delivered messages in the order of their names, ticks from creation to delivery and hops of the delivered copy |
| Scenario.FloodDeliversMost | go-daemon/pkg/routing/sim/sim.go:155-306 | on every runnable scenario and schedule no forwarder delivers more messages than flooding |
| Scenario.LargeBudgetOutcome | go-daemon/pkg/routing/sim/sim.go:155-306 | when the first injection is after tick 0, a budget of at least nodes - 1 gives exactly the outcome of flooding |
| Scenario.LostOutcome | go-daemon/pkg/routing/sim/sim.go:328-336 | one message injected and lost at tick 0: the outcomes of flooding and of a budget of two differ |
| Scenario.OutcomesExactlyAfterTickZero | go-daemon/pkg/routing/sim/sim.go:155-306 | over all scenarios and schedules, equal outcomes under a large budget, and the bound of nodes - 1 copies a message, hold if and only if the first injection is after tick 0 |
| Scenario.SweepOutcome | go-daemon/pkg/routing/sim/sim.go:272-285 | no outcome changes if the sweep also discards delivered copies |
| Simulator.Node.Give | go-daemon/pkg/routing/sim/sim.go:383-386 | appends one copy; buffer and presence map still mirror each other |
| Simulator.Node.HasCopy | go-daemon/pkg/routing/sim/sim.go:388-392 | the presence map answers for the buffer |
| Simulator.Node.DropFrom | go-daemon/pkg/routing/sim/sim.go:394-402 | removes the message's only copy, from buffer and presence map |
| Simulator.Node.SweepBuf | go-daemon/pkg/routing/sim/sim.go:272-285 | the rebuilt buffer and presence map hold exactly what the sweep keeps |
| Simulator.Node.AgeStats | go-daemon/pkg/routing/sim/sim.go:254-270 | ages every entry once, in whatever order |
| Simulator.KeptBufMirrors | go-daemon/pkg/routing/sim/sim.go:272-285 | a filtered buffer still holds each message once and mirrors the filtered contents |
| Simulator.OfferCopyView | go-daemon/pkg/routing/sim/sim.go:318-342 | offering one copy is one step of that message's machine and leaves every other message alone |
| Simulator.World.DeliverCopy | go-daemon/pkg/routing/sim/sim.go:328-333 | marks the state, records latency and hops, takes the sender's copy away |
| Simulator.World.SprayCopy | go-daemon/pkg/routing/sim/sim.go:334-336 | the peer gets a copy one hop on, counted in the shared state |
| Simulator.World.HandOverCopy | go-daemon/pkg/routing/sim/sim.go:337-340 | the copy moves, uncounted |
| Simulator.World.OfferCopy | go-daemon/pkg/routing/sim/sim.go:317-342 | the loop body of a contact changes buffers, states and deliveries as the decision says, and nothing else |
| Simulator.World.Exchange | go-daemon/pkg/routing/sim/sim.go:311-344 | one direction over a snapshot is one offer of every message held in it |
| Simulator.World.UpdateEncounter | go-daemon/pkg/routing/sim/sim.go:356-364 | the met peer's record is fetched or made fresh, updated from the peer's table, and stored |
| Simulator.World.MeetNodes | go-daemon/pkg/routing/sim/sim.go:236-252 | a contact is both encounter updates and then both directions over snapshots taken before either |
| Simulator.World.ProcessContacts | go-daemon/pkg/routing/sim/sim.go:235-252 | all contacts of a tick, in order |
| Simulator.World.MarkContacts | go-daemon/pkg/routing/sim/sim.go:229-233 | marks exactly the nodes that met somebody |
| Simulator.World.AgeIdleNodes | go-daemon/pkg/routing/sim/sim.go:254-270 | ages the tables of exactly the other nodes |
| Simulator.World.SweepAllNodes | go-daemon/pkg/routing/sim/sim.go:272-285 | sweeping all buffers is the sweep step of every message |
| Simulator.World.StepTick | go-daemon/pkg/routing/sim/sim.go:228-286 | a tick after its injection is a tick of every message's machine |
| Simulator.World.Inject | go-daemon/pkg/routing/sim/sim.go:190-212 | adds one message held by its source and changes no other |
| Simulator.Accounting | go-daemon/pkg/routing/sim/sim.go:288-305 | the loop over the states, in the order of their names, computes the account of all messages in that order |
| IdOrder.NamesUnique | go-daemon/pkg/routing/sim/sim.go:196 | a message's formatted name determines its number, so numbers can stand for names |
| IdOrder.SortedIds | go-daemon/pkg/routing/sim/sim.go:290-294 | the visiting order: every message once, names in text order |
| IdOrder.LaterMessageFirst | go-daemon/pkg/routing/sim/sim.go:290-294 | that order is not the order of injection: message 1000 comes before message 101 |
| Simulator.RunTick | go-daemon/pkg/routing/sim/sim.go:189-286 | the program stays in step with the per-message machines through one tick |
| Simulator.Simulate | go-daemon/pkg/routing/sim/sim.go:168-305 | a whole run's outcome, lists in the order of the names, is the account of the per-message machines |
| Simulator.Run | go-daemon/pkg/routing/sim/sim.go:155-306 | succeeds exactly on a valid configuration, with the outcome the theorems are about |
| Mesh.DecrementTTL | go-daemon/pkg/message/message.go:358-363 | one hop more; TTL plus hop count is unchanged while TTL is positive, and a spent TTL stays; nothing else changes |
| MeshNode.Node.RecordEncounter | go-daemon/pkg/mesh/mesh.go:722-733 | aging since the last meeting, then the encounter without transit; predictabilities stay below certainty |
| MeshNode.Node.RoutingCandidates | go-daemon/pkg/mesh/mesh.go:750-762 | the known peers except ourselves and the previous hop, each once, in ascending order |
| MeshNode.Node.OfferPeer | go-daemon/pkg/mesh/mesh.go:666-701 | one candidate: ledger, report, send and copy count as the decision says |
| MeshNode.Node.RouteToPeers | go-daemon/pkg/mesh/mesh.go:650-702 | the pass over all candidates, each deciding on the message as the previous one left it |
| MeshNode.Node.SendMessage | go-daemon/pkg/mesh/mesh.go:354-414 | routes an addressed message from copy count 1 up, or sends directly, or publishes; one report |
| MeshNode.Node.ForwardMessage | go-daemon/pkg/mesh/mesh.go:619-644 | routes or publishes |
| MeshNode.Node.Relay | go-daemon/pkg/mesh/mesh.go:572-592 | decrements and forwards unless the message is our own or its hops are spent |
| MeshNode.Node.Acknowledge | go-daemon/pkg/mesh/mesh.go:594-606 | answers chat, file and sos messages addressed to us with a receipt of TTL 8 |
| MeshNode.Node.Note | go-daemon/pkg/mesh/mesh.go:542-570 | a first arrival is remembered, refreshes the encounter, is reported, and adds its sender to the peers |
| MeshNode.Node.DeliverMessage | go-daemon/pkg/mesh/mesh.go:529-607 | the whole handling of an arrival: dedup, encounter, peer table, application, relay, receipt |
| RelayLaws.FloodingSends | go-daemon/pkg/mesh/mesh.go:371-414 | a node without a budget sends over a stream to the recipient if one opens, publishes otherwise, and reports one send with no hops |
| RelayLaws.PassLedger | go-daemon/pkg/mesh/mesh.go:666-701 | the ledger of a message grows by exactly the peers served; a peer in it is served again only as the destination; a destination among the candidates is always served |
| RelayLaws.DestinationServed | go-daemon/pkg/mesh/mesh.go:650-702 | a destination that is known and not the previous hop gets the message, exactly once, whatever the budget |
| RelayLaws.ArrivalNoted | go-daemon/pkg/mesh/mesh.go:547-570 | a first arrival is seen, its readable sender known, its previous hop met |
| RelayLaws.ArrivalShown | go-daemon/pkg/mesh/mesh.go:572-592 | the application sees a message as it was passed on: one hop further, unless it is our own or spent |
| RelayLaws.OnlyReceipts | go-daemon/pkg/mesh/mesh.go:572-606 | besides the message itself only receipts are sent, only for chat, file and sos addressed to us by others, with TTL 8 and back to the sender |
| RelayLaws.ReceiptSent | go-daemon/pkg/mesh/mesh.go:594-606 | such an arrival is answered by exactly one receipt: straight to the sender on a routing node, over a stream or by publish on a flooding one |
| RelayLaws.ReportedNumbers | go-daemon/pkg/mesh/mesh.go:554-588 | reception is reported as the message came, each forward with one hop more and one less to live |
| RelayLaws.ReportsAlongPath | go-daemon/pkg/mesh/mesh.go:354-702 | in every run reported hops and TTL of every copy add up to those of the first send |
| RelayLaws.EncounterAfterSilence | go-daemon/pkg/mesh/mesh.go:722-733 | an encounter takes what the silence has left, second by second, three quarters of the way to certainty; a stranger starts at 0.75; no other record changes |
| RelayLaws.ChanceAfterSilence | go-daemon/pkg/mesh/mesh.go:737-744 | our chance for a destination is what the silence has left of its record |
| Network.RouteOuts | go-daemon/pkg/mesh/mesh.go:650-702 | a pass hands at most one copy to each candidate, changes only the copy count, and never lowers it |
| Network.SendOuts | go-daemon/pkg/mesh/mesh.go:354-414 | a send emits copies of the one message, either one publish or direct sends to distinct peers |
| Network.RelayOuts | go-daemon/pkg/mesh/mesh.go:572-592 | a relay emits copies of the decremented message only, and none when its hops are spent or it is our own |
| Network.AckOuts | go-daemon/pkg/mesh/mesh.go:594-606 | a receipt goes out exactly where one is due, as one hop |
| Network.OneHopReach | go-daemon/pkg/mesh/mesh.go:619-702 | one hop puts at most one copy per node in flight |
| Network.ApplyWellFormed | go-daemon/pkg/mesh/mesh.go:529-607 | every step keeps node identities and sends within the network |
| RelayTermination.WeightCovers | go-daemon/pkg/mesh/mesh.go:572-606 | (N+1)^TTL, with an allowance for the receipt, pays for an arrival, its next hop and its receipt |
| RelayTermination.ArrivalDecreases | go-daemon/pkg/mesh/mesh.go:529-607 | every arrival makes the network lighter by at least one |
| RelayTermination.OtherStepsBounded | go-daemon/pkg/mesh/mesh.go:316-414 | a local send adds at most N times its weight; prunes, joins and losses add nothing |
| RelayTermination.RelayingTerminates | go-daemon/pkg/mesh/mesh.go:529-702 | in every run, under any prunes and any mix of nodes, arrivals number at most the initial measure plus the allowance of the local sends |
| CopyPotential.NoHandoff | go-daemon/pkg/mesh/mesh.go:670-701 | a spraying live node never decides to hand its own copy over |
| CopyPotential.RouteWeight | go-daemon/pkg/mesh/mesh.go:650-702 | the copies a pass sends out weigh no more than the message loses: each spray splits 2^(L-c) |
| CopyPotential.ArrivalPotential | go-daemon/pkg/mesh/mesh.go:529-607 | no arrival, the destination's included, increases the potential |
| CopyPotential.StepPotential | go-daemon/pkg/mesh/mesh.go:354-702 | no step of a run without dedup pruning increases the potential |
| CopyPotential.StartPotential | go-daemon/pkg/mesh/mesh.go:371-386 | the first send puts the potential at most at 2^L - 1 |
| CopyPotential.CopyBound | go-daemon/pkg/mesh/mesh.go:371-386 | with L the largest budget of a spraying node: at most 2^L - 1 physical copies exist outside the destination and at most 2^L nodes ever process the message, whatever the topology and order |
| BudgetClaim.AfterArrival | go-daemon/pkg/mesh/mesh.go:572-575 | a network in which 2L - 1 copies exist after one send and one arrival |
| BudgetClaim.BudgetHoldsExactly | go-daemon/pkg/mesh/mesh.go:108-112 | at most L copies exist in every network and run if and only if L = 1 |
| SprayTree.ParentOf | go-daemon/pkg/mesh/mesh.go:666-701 | the tree: node y is the peer of exactly the node 2^rank above it |
| SprayTree.PeersMutual | go-daemon/pkg/mesh/mesh.go:666-701 | in the tree knowing each other is mutual |
| SprayTree.NodeServes | go-daemon/pkg/mesh/mesh.go:572-702 | a node that a copy first reaches hands one to each of its kids, each counted one higher, and none to the sender or its parent |
| SprayTree.GrowStep | go-daemon/pkg/mesh/mesh.go:529-607 | one arrival reaches one more node and leaves every kid of a reached node reached or with a copy on its way |
| SprayTree.BoundAttained | go-daemon/pkg/mesh/mesh.go:371-386 | for every budget L a network and a run in which exactly 2^L nodes process the message and 2^L - 1 copies exist |
| SprayTree.BoundExactly | go-daemon/pkg/mesh/mesh.go:371-386 | the numbers of processing nodes never exceeded, over all networks and runs, are exactly those from 2^L up |
| RelayPaths.PathInvariant | go-daemon/pkg/mesh/mesh.go:354-702 | TTL plus hops is constant along every relay path, local sends included; copy counts never fall below the first value nor exceed max(L, first value); pruned or not, flooding and spraying mixed |
| RelayPaths.PathsFromFirstSend | go-daemon/pkg/mesh/mesh.go:354-414 | the same from a network in which the message has not been sent, for any first copy count, the constructors' 0 included |
| RelayPaths.EncountersInRuns | go-daemon/pkg/mesh/mesh.go:722-733 | in every run of the network predictabilities stay probabilities |
| RelayPaths.NeverHandsOff | go-daemon/pkg/mesh/mesh.go:670-701 | in no run does a live node take the handoff branch |
| RelayReports.ArrivalTrace | go-daemon/pkg/mesh/mesh.go:529-592 | what one arrival reports about a message id |
| RelayReports.SendTrace | go-daemon/pkg/mesh/mesh.go:371-397 | what one local send reports: one event of its own, and forwards exactly when it is routed and some known peer takes a copy |
| RelayReports.TraceGrammar | go-daemon/pkg/mesh/mesh.go:529-592 | between dedup prunes, among sends of other messages, joins, leaves and ledger prunes, a node reports an id as one reception with its forwards (none for a message from itself) followed by one drop per further arrival |
| RelayReports.GrammarExactly | go-daemon/pkg/mesh/mesh.go:354-592 | that grammar holds if and only if the node does not send the message itself |
| RelayReports.ForwardsFirstExactly | go-daemon/pkg/mesh/mesh.go:371-385 | a forward is reported before any reception if and only if the node itself sends the message before a copy arrives, on the routed path and with a known peer that takes one |
| RelayReports.OwnMessageForwardedUnreceived | go-daemon/pkg/mesh/mesh.go:682-695 | a node with one peer that sends an addressed message: forwarded, never received |
| RelayReports.ReportsInRuns | go-daemon/pkg/mesh/mesh.go:354-702 | both equivalences for every node of every run of the network |
| FloodCoverage.CoveringRelays | go-daemon/pkg/mesh/mesh.go:572-592 | a first arrival serves every neighbour and keeps hops below the number of nodes reached |
| FloodCoverage.CoveringEnds | go-daemon/pkg/mesh/mesh.go:584-592 | a first arrival that is not passed on keeps the covering invariant when every other node is already reached |
| FloodCoverage.CoveringRun | go-daemon/pkg/mesh/mesh.go:529-644 | the covering invariant in every run without dedup pruning or loss |
| FloodCoverage.FloodCovers | go-daemon/pkg/mesh/mesh.go:529-644 | a broadcast, or an addressed message among nodes without budgets: on a connected graph of at most TTL + 2 nodes, once nothing of it is in flight every node has accepted it, its recipient included, whatever the order of arrivals |
| FloodCoverage.FloodReach | go-daemon/pkg/mesh/mesh.go:572-592 | a node TTL + 2 or more links away is never reached, in any run |
| FloodCoverage.FloodingRelays | go-daemon/pkg/mesh/mesh.go:572-644 | a flooding node publishes a foreign message with hops left once, one hop further, and reports one forward; it drops a spent one; it is silent on its own |
| FloodLimit.Quieten | go-daemon/pkg/mesh/mesh.go:529-607 | any faithful run can be continued until nothing is in flight |
| FloodLimit.LineUncovered | go-daemon/pkg/mesh/mesh.go:572-592 | a complete run on a line of more than TTL + 2 nodes leaves the last one out |
| FloodLimit.CoversExactly | go-daemon/pkg/mesh/mesh.go:529-644 | every complete run of a flooded message on every connected graph of n nodes reaches everyone if and only if n <= TTL + 2 |
| Sos.Manager.SendAlert | go-daemon/pkg/sos/sos.go:82-127 | a sent alert is tracked; one that could not be sent is not |
| Sos.Manager.HandleIncomingSOS | go-daemon/pkg/sos/sos.go:130-196 | errors for a bad payload or sender; a tracked alert only has its receipt time refreshed; a new one gets a full duration and, on request, one receipt straight to its sender |
| Sos.Manager.ReBroadcastActive | go-daemon/pkg/sos/sos.go:274-312 | publishes exactly one message per alert that is neither outlived nor out of hops, with one hop less |
| Sos.Manager.CheckExpiry | go-daemon/pkg/sos/sos.go:332-350 | deletes exactly the outlived alerts and reports each once |
| SosLifetime.StepInTime | go-daemon/pkg/sos/sos.go:130-312 | every arrival, rebroadcast, expiry, prune and loss keeps every copy and record within its deadline |
| SosLifetime.RaiseInTime | go-daemon/pkg/sos/sos.go:82-127 | a raised alert starts within its deadline |
| SosLifetime.NoImmortalAlert | go-daemon/pkg/sos/sos.go:82-312 | in every run, re-acceptances after prunes included, a record with x hops left expires by the raise plus (65 - x) times (duration + delay), so none later than 65 times that |
| SosLifetime.DeadAfterDeadline | go-daemon/pkg/sos/sos.go:274-350 | after the last deadline no node starts to track the alert again, none rebroadcasts it, and an expiry check removes it |
| SosTracking.RaisedIsTracked | go-daemon/pkg/sos/sos.go:82-113 | a raised alert is tracked as sent, for an hour from then |
| SosTracking.ArrivalIsTracked | go-daemon/pkg/sos/sos.go:130-165 | a first arrival of a readable alert is tracked as it was passed on, for an hour from then; one tracked already keeps message and start |
| SosTracking.AlertKept | go-daemon/pkg/sos/sos.go:130-350 | in every run an alert that is not cancelled at its node is tracked up to an hour after its start there |
| SosTracking.TrackedIsRepeated | go-daemon/pkg/sos/sos.go:274-312 | a tracked alert can be rebroadcast exactly up to the hour and with more than one hop left; each listener then gets one copy, one hop further |
| SosTracking.ExpiredAfterTheHour | go-daemon/pkg/sos/sos.go:332-350 | an expiry check removes a tracked alert exactly after its hour |
| SosTracking.RaisedLivesAnHour | go-daemon/pkg/sos/sos.go:82-312 | a raised alert is tracked and can be sent again in every state of every run up to an hour later, unless cancelled |
| Codec.ZigzagBijection | go-daemon/pkg/codec/codec.go:102-106 | the bit formulas are mutual inverses over all 64-bit values, in the order 0, -1, 1, -2 (Protocol Buffers Encoding, section "Signed Integers") |
| Codec.UvarintRoundTrip | go-daemon/pkg/codec/codec.go:94-100 | reading a varint undoes writing it, whatever follows, for all 64-bit values (Protocol Buffers Encoding, section "Base 128 Varints") |
| Codec.UvarintShortest | go-daemon/pkg/codec/codec.go:94-100 | no form that reads as a value is shorter than the written one |
| Codec.StringRoundTrip | go-daemon/pkg/codec/codec.go:110-157 | reading undoes writing for every string the two forms can carry |
| Codec.FlagsRead | go-daemon/pkg/codec/codec.go:82-91 | type code and presence bits can be read back from the flags byte |
| Codec.TypeCodes | go-daemon/pkg/codec/codec.go:42-68 | the six short codes, and 15 for every other type |
| Codec.StringForms | go-daemon/pkg/codec/codec.go:110-129 | nothing, one length byte, or 255 and two bytes with the high one first |
| Codec.RoundTrip | go-daemon/pkg/codec/codec.go:162-364 | for every message the format carries and every suffix, reading what was written gives the message |
| Codec.DecodingCost | go-daemon/pkg/codec/codec.go:244-364 | what reading a message takes from the data at least, and the ranges of what is read |
| Codec.RoundTripExactly | go-daemon/pkg/codec/codec.go:162-364 | the round trip holds if and only if: id, sender, payload and a long-form type are non-empty, no string is 255 bytes or over 65535, TTL and hop count fit a byte, spray counters are zero |
| Codec.EmptyPayloadUnreadable | go-daemon/pkg/codec/codec.go:211-214 | an empty chat is written in eight bytes that read as an error, its timestamp taken for its text |
| Codec.AlertWritten | go-daemon/pkg/codec/codec.go:162-241 | a full alert, byte by byte |
| Codec.PutString | go-daemon/pkg/codec/codec.go:112-129 | the filled buffer is the prefixed string |
| Codec.FlagsByte | go-daemon/pkg/codec/codec.go:162-190 | the bits set one by one make the flags byte |
| Codec.Marshal | go-daemon/pkg/codec/codec.go:162-241 | the appended buffer is the encoding the theorems are about |
| Codec.Next | go-daemon/pkg/codec/codec.go:131-157 | an optional string at an offset: value and new offset, or the failure |
| Codec.Unmarshal | go-daemon/pkg/codec/codec.go:244-364 | the offset-driven parser computes the decoding the theorems are about, errors included |
| Codec.MTUFriendlySplit | go-daemon/pkg/codec/codec.go:445-459 | frames join to the data, all full but the last, none over the MTU |
| Codec.SendInFrames | go-daemon/pkg/codec/codec.go:443-459 | a message comes back from its frames if and only if the format carries it |
| FileTransfer.ChunkCountIsCeiling | go-daemon/pkg/filetransfer/transfer.go:165-166 | just enough chunks to hold the file |
| FileTransfer.SlicesJoin | go-daemon/pkg/filetransfer/transfer.go:255-312 | the first k chunks join to the first k chunk sizes of the file |
| FileTransfer.SendChunks | go-daemon/pkg/filetransfer/transfer.go:255-312 | the send loop emits every chunk of the file once and counts its size |
| FileTransfer.Transfer.ReceiveChunks | go-daemon/pkg/filetransfer/transfer.go:395-440 | succeeds exactly on the announced number of acceptable packets; table and byte count are those of the packets |
| FileTransfer.Transfer.Reassemble | go-daemon/pkg/filetransfer/transfer.go:467-485 | succeeds exactly when no chunk is missing, with the chunks written in index order |
| FileTransfer.Transfer.HandleStream | go-daemon/pkg/filetransfer/transfer.go:395-463 | completes if and only if the announced number of acceptable packets arrives and no two have the same index; then the received count is the number of bytes written; with none announced, with an empty file |
| FileTransfer.Pigeonhole | go-daemon/pkg/filetransfer/transfer.go:395-485 | n indices below n miss none exactly when none repeats |
| FileTransfer.CompleteIffDistinct | go-daemon/pkg/filetransfer/transfer.go:395-485 | the table is complete exactly when the indices are distinct |
| FileTransfer.ReceivedIsOutput | go-daemon/pkg/filetransfer/transfer.go:395-485 | for any complete set of chunks the received sizes add up to the bytes of the output |
| FileTransfer.AnyOrderReassembles | go-daemon/pkg/filetransfer/transfer.go:255-485 | the sender's chunks in any order give back the file byte for byte, and the received count is its size |
| FileTransfer.RearrangedIsShuffled | go-daemon/pkg/filetransfer/transfer.go:255-312 | any rearrangement of what the send loop emits is acceptable, complete and free of repeats |
| FileTransfer.TransferFile | go-daemon/pkg/filetransfer/transfer.go:255-485 | whatever order the sender's chunks arrive in, the receiver completes with the file and its size, the empty file included |
| KeyCache.HexRoundTrip | go-daemon/pkg/crypto/box.go:153-191 | hex decoding undoes hex encoding, two digits a byte |
| KeyCache.HexExactly | go-daemon/pkg/crypto/box.go:172-176 | text reads as hex exactly when it has an even number of characters, all hex digits |
| KeyCache.DecryptUndoesEncrypt | go-daemon/pkg/crypto/box.go:153-191 | with a box that opens what it seals, decrypting undoes encrypting; the first 48 digits are the nonce |
| KeyCache.Manager.GetSharedKey | go-daemon/pkg/crypto/box.go:252-276 | cached or derived, the key is the one for the peer's current public key |
| KeyCache.Manager.SetPeerKey | go-daemon/pkg/crypto/box.go:279-288 | a new key forgets the one derived from the old, and counts even if it could not be saved |
| KeyCache.Manager.ImportKeyFromHex | go-daemon/pkg/crypto/box.go:373-381 | 32 bytes of hex are stored, with an error if saving fails; anything else changes nothing |
| KeyCache.ValidKeyExactly | go-daemon/pkg/crypto/box.go:373-381 | a key is imported from exactly 64 hex digits |
| KeyCache.Manager.HandleKeyExchangeMessage | go-daemon/pkg/crypto/box.go:404-420 | stores the first 32 bytes, filled up from spare capacity; error cases and the panic change nothing; agreement is kept |
| KeyCache.Manager.LoadKnownKeys | go-daemon/pkg/crypto/box.go:312-341 | valid entries replace known keys, all of 32 bytes; the cache still agrees if the file has no other key for a cached peer, and only then when different keys give different shared keys |
| KeyCache.ReloadLosesAgreement | go-daemon/pkg/crypto/box.go:312-341 | a changed key in the file for a cached peer leaves the cache with what the old key gave |
| KeyCache.TwoKeysLoseAgreement | go-daemon/pkg/crypto/box.go:312-341 | two concrete keys for which that happens, under a symmetric key agreement |
| KeyCache.Manager.EncryptMessage | go-daemon/pkg/crypto/box.go:430-451 | broadcasts are left alone; anything else is sealed with the current key, or refused without one |
| KeyCache.Manager.DecryptMessage | go-daemon/pkg/crypto/box.go:454-486 | opens with the current key and clears nonce and key id; every error case |
| KeyCache.OpensExactly | go-daemon/pkg/crypto/box.go:454-486 | a message is opened if and only if it is sealed, its sender named and known, its payload hex of at least a nonce, and the box opens; only payload and seal change |
| KeyCache.PeerUndoesEncryption | go-daemon/pkg/crypto/box.go:430-486 | with a symmetric key agreement, what one peer seals for another the other opens, payload restored and seal cleared |
| KeyCache.SealedEnvelope | go-daemon/pkg/crypto/box.go:430-451 | a sealed message carries the first eight hex digits of the sender's public key and its nonce in hex; sender and recipient stay |

## Left out

- libp2p hosts, streams, discovery and GossipSub: the network model has "send to a peer" and "publish to listeners"; the JSON forms on the wire are not modelled.
- Mobility, radio range and the random generator: a run takes an arbitrary schedule of contacts and draws. Contacts of the original come from geometry and are a special case.
- Floating point: predictabilities are exact reals, so rounding and its effect on comparisons are not captured.
- Integer width of ticks, counters, hop counts and sizes outside the codec: they are unbounded; the 16- and 64-bit widths of the codec are modelled.
- Message ids of the simulator are sequence numbers; `IdOrder` says how their names are formatted and sorted. Sorting by insertion stands for the library's sort.
- Benchmark figures such as the share of copies spray-and-wait needs: they are measured, not theorems.
- Outcome averages and percentages, and the action classifiers CreatesCopy, MovesCopy and KeepsCopy: one-line functions.
- Interleaving of goroutines inside one handler: a handled message is one atomic step; order between handlers is arbitrary.
- One-assignment handlers of the live node and the alert manager (marking a sprayed peer, the two prunes, cancelling an alert, counting a receipt) are part of the model and have no row.
- The relay never reads sender nick, timestamp, payload, nonce or key id, so `Mesh.Message` keeps them as one body; peer identities are numbers in the order of their text forms.
- A receipt's own content (which message it answers, its status) is part of the body and not modelled.
- SosLifetime.NoImmortalAlert: all nodes read one clock; clocks that disagree are not modelled. The alert's id is assumed to be used for nothing else.
- SosLifetime.DeadAfterDeadline: stated per step from any state within its deadlines, so it applies to every later step of a run.
- Sos.Manager.HandleIncomingSOS: what the payload says is an input; the receipt is handed to a direct stream, whose failure is not reported.
- Alerts are values in a map; the original hands out pointers, so a caller that changes an alert it was given is not captured.
- FloodCoverage.FloodCovers: an addressed message is covered where no node has a budget and the direct stream fails; needs publishes to reach the neighbours without loss and no dedup prune during the flood; with either, coverage can fail.
- CopyPotential.CopyBound: for runs without dedup pruning, since a pruned node processes the message anew; the ledger of sprayed peers may be pruned at any time.
- Broadcasts on spraying nodes and addressed messages on flooding nodes are covered by RelayTermination and RelayPaths, not by the copy bound.
- Real cryptography: key agreement and box are parameters with their defining laws as assumptions; BIP39 mnemonics wrap a library and are left out.
- KeyCache.Manager.LoadKnownKeys: a missing or unreadable file leaves everything as it is and is not modelled. Without the assumption that different keys give different shared keys, the condition on keys is sufficient only; the exact one is then on shared keys (`ReloadAgrees`).
- KeyCache.Manager.ImportKeyFromHex: the keys file itself is not modelled; whether it could be written is an input, as in SetPeerKey and HandleKeyExchangeMessage.
- KeyCache.Manager.HandleKeyExchangeMessage: parsing of the payload is an input, as is the spare capacity of the decoded slice.
- FileTransfer.Transfer.HandleStream: starts after the metadata packet; write errors, file names, progress figures and notifications are left out. Cancelling is left out because the loops never read it.
- FileTransfer.SendChunks: every read but the last is full, as for a regular file that does not change.
- Message store, configuration, command line, WebSocket bridge, the Flutter and Kotlin apps and the scripts.
