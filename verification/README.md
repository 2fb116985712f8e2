# Causal broadcast: a verified model

The repository is a broadcast library. Every process numbers its messages, keeps them until all
peers have acknowledged them, delivers what arrives in the order of the sender's numbers, holds
early arrivals, asks for what is missing, retransmits what stays unacknowledged, and declares a peer
dead that has missed a message for six messages. This project models that protocol twice, and proves
that every uninterrupted call of the first model is a sequence of steps of the second:

- `Node.dfy` has the classes and loops: one broadcast context whose queues, buffers, bitmaps and
  clock are updated in place. Each method is proved against a function on values (`Delivery.dfy`,
  `Retention.dfy`, `Contexts.dfy`), and what matters about those functions is proved as lemmas
  (`Delivery.dfy`, `Receiving.dfy`, `Retention.dfy`, `Ageing.dfy`, `Sending.dfy`).
- `Cluster.dfy` lets the three threads of any number of nodes take turns between critical
  sections, over a network that loses, reorders and duplicates. `ClusterInvariant.dfy`,
  `ClusterSteps.dfy` and `ClusterStore.dfy` prove one invariant of every step; `ClusterRuns.dfy` says
  what that means for whole runs. `FifoLinks.dfy` adds what holds on links that only lose, and
  `Repair.dfy`, with the moves of `FifoMoves.dfy`, shows that on such links a run can go on to close
  any gap; `Overtaking.dfy` and `Halting.dfy` have runs on links that do not keep the order: one in which
  a message stays behind for good, and one in which a process ends. `Connection.dfy` joins the two models. It goes one way only: the cluster also does
  what the code does not, such as an ageing round that resends or declares at will.

Beside them stand `Wire.dfy` (messages as bytes), `Locks.dfy` (no deadlock), `Wakeup.dfy` (no lost
wakeup), and the hash map the program carries along in `stb_ds.h`: `ProbeSequence.dfy`,
`SlotTables.dfy`, `HashIndexes.dfy` and `HashMaps.dfy` prove that its open addressing refines a
finite map. `Sequences.dfy`, `Messages.dfy`, `Bitmaps.dfy` and `Powers.dfy` hold what the others share.

## What is assumed

- One application thread per node, as in `main.c:55-69`. Peers are fixed before the threads start,
  distinct, below 16, and never the node itself.
- Clocks run from 1 to 65534; the receiver of clock 65535 exits (`src/cbcast/receive.c:133-135`).
- A message carries a payload of 1 to 65535 bytes: `cbc_send` cuts longer ones and refuses those that
  are empty or become so. In runs `sendto` accepts any size; `Wire` says which fit a datagram.
- The network does not forge datagrams. It may lose, reorder and duplicate them, except in
  `FifoLinks`, where it only loses.
- A process exits where the code says `RESULT_UNREACHABLE` (`include/result.h:88`,
  `src/result.c:21-31`); the model halts the node.
- What is said about acknowledgements concerns a sender up to and including its first declaration of
  dead peers: afterwards `find_unacked_peers` still lists dead peers that new targets leave out.
  Delivery in order and exactly once is proved for all runs, with declarations.
- The header carries only the sender's own clock, and the receiver compares one entry. So the
  guarantee is the order of each sender; across senders none is claimed.

## What was found

- A DATA message that fills a gap does not look at the held messages; only a retransmission does.
  When messages overtake each other, a held message whose predecessors are all delivered can
  therefore stay behind (`Receiving.ReorderingStrands`). `Receiving.DrainedUnlessLeft` gives the exact
  condition for one call, and on links that keep the order it never happens
  (`FifoLinks.NoExitNoneStranded`). A later retransmission to the same node drains it after all, but
  nothing need cause one: `Overtaking.OvertakenIsLeftBehind` is a run that ends with the sender idle and
  its buffer empty, since the message was acknowledged. From there the message is never sent again
  (`Overtaking.NeverSentAgain`), so the receiver, which waits for it, goes no further unless an old copy
  of it turns up on the network (`Overtaking.OnlyACopyHelps`).
- A DATA message that comes after its own retransmission ends the receiving process, although nothing is
  missing (`Halting.OvertakenByItsCopy`). `Receiving.ExitsIff` gives the exact condition for one call, and
  `Halting.HaltsOnlyAtStale` shows that in runs nothing else ends a process; on links that keep the order
  it never happens (`FifoLinks.NoExitNoneStranded`).
- A round that declares a peer dead can leave out retransmissions it owes to living peers, because
  `retransmit_messages` returns at the first message that misses nobody any more
  (`Ageing.DeclarationCutsRoundShort`); `Ageing.RoundQueuesAllIff` says exactly when.
- `cbc_send` takes the length of a payload as a `size_t` and passes it on in 16 bits: the message it
  creates keeps only part of a payload of 65536 bytes or more, and multiples of 65536 are refused as
  empty (`Wire.WholePayloadIff`). Of the payloads that are kept whole, those of more than 65498 bytes
  exceed a UDP datagram over IPv4, and the result of `sendto` is ignored (`Wire.LeavesByUdpIff`).

## Model

| member | source | states |
|---|---|---|
| Nodes.CreateNode | src/cbcast/init.c:10-72 | a pid not below the number of processes, or no processes, is refused; otherwise a new context has zero clocks, empty queues, and all peers alive |
| Nodes.Node.Receive | src/cbcast/receive.c:33-57 | gives the application the oldest delivered message and removes only that one, or nothing if there is none |
| Nodes.Node.AckReceivedMessage | src/cbcast/receive.c:131-158 | queues one acknowledgement of that clock to that peer; clock 65535 ends the process instead |
| Nodes.Node.RequestRetransmission | src/cbcast/receive.c:183-214 | queues one request for the next clock of that sender, in 16 bits, and changes nothing else |
| Nodes.Node.DeliverOneHeld | src/cbcast/receive.c:221-247 | one search delivers the first held message of the sender that is next, counts it, and reports whether there was one |
| Nodes.Node.TryDeliverHeldMsgs | src/cbcast/receive.c:216-250 | ends, and leaves the buffer, the delivery queue and the sender's clock as draining the held messages does; no other clock changes |
| Nodes.LoopEndIsDrain | src/cbcast/receive.c:216-250 | the loop that moves one message and searches again ends where draining the held messages does |
| Nodes.Node.HandleDataMsg | src/cbcast/receive.c:252-338 | the whole new context in the deliver, hold and error cases, and the exits: a stale DATA message and clock 65535 |
| Nodes.Node.StoreMsg | src/cbcast/receive.c:284-299 | counts and delivers the message; only a retransmission drains what was held behind it |
| Nodes.Node.KeepMsg | src/cbcast/receive.c:309-333 | a message is held unless one with its sender and clock is held already |
| Nodes.Node.RegisterAckFrom | src/cbcast/receive.c:340-378 | sets the peer's bit in the first message with that clock and retires it when bitmap and target agree; nothing else changes |
| Nodes.Node.QueueRetransmission | src/cbcast/receive.c:380-425 | queues the buffered message with that clock as a retransmission, or nothing if it is not buffered |
| Nodes.Node.ReceiveMsg | src/cbcast/receive.c:107-125 | the dispatch on the kind, with the whole new context |
| Nodes.Node.FindUnackedPeers | src/cbcast/send.c:273-286 | exactly the peers whose bit is not set, in their order |
| Nodes.Node.FindOldMessages | src/cbcast/send.c:233-249 | exactly the buffered messages of age 2 or more that are not fully acknowledged, in order, also with the clock in 16 bits |
| Nodes.FilterDeadMessages | src/cbcast/send.c:208-231 | the loop that restarts after every removal ends, and splits the list at age 6 keeping the order on both sides |
| Nodes.Node.FindDeadPeers | src/cbcast/send.c:72-89 | each peer that one of the messages misses, once, in the order found; none if a message misses nobody |
| Nodes.Node.CountRemaining | src/cbcast/send.c:105-124 | the context is disconnected exactly if no peer or fewer than half of them remain |
| Nodes.MarkPeersDead | src/cbcast/send.c:131-135 | exactly the listed peers become dead |
| Nodes.Node.PurgeSent | src/cbcast/send.c:145-158 | the loop that restarts after every removal ends, and removes exactly the fully acknowledged messages, keeping the order |
| Nodes.Node.HandleDeadPeers | src/cbcast/send.c:91-168 | peers, bitmaps and buffer after a declaration; messages already taken out of the buffer get the bits as well, since they are shared |
| Nodes.Node.RetransmitMessages | src/cbcast/send.c:251-271 | the queue gains the retransmissions of the round, from the end of the list up to the first message that misses nobody |
| Nodes.Node.QueueRetransmitMessages | src/cbcast/send.c:288-317 | one retransmission to each target, with the original clock and payload |
| Nodes.Node.CollectRound | src/cbcast/send.c:181-192 | which peers the round will declare dead and which messages it will retransmit |
| Nodes.Node.Declare | src/cbcast/send.c:190-194 | if there are peers to declare, the context after the declaration; the messages of the round, which the buffer shares, carry the dead peers' bits as well |
| Nodes.Node.DeclareAndResend | src/cbcast/send.c:192-198 | the declaration, and after it the retransmissions computed from the bitmaps it has changed |
| Nodes.Node.HandleOldMessages | src/cbcast/send.c:172-199 | the whole new context after an ageing round |
| Nodes.Node.Send | src/cbcast/send.c:25-60 | the three error returns, and otherwise the counted clock, the queued message and the ageing round |
| Sending.KeptIs | src/cbcast/send.c:34 | what a call keeps of a payload is all of it if and only if it is shorter than 65536 bytes, and otherwise its beginning |
| Sending.RefusesIff | src/cbcast/send.c:25-40 | a call is refused if and only if the payload is empty, there are no peers, or the length is a multiple of 65536 |
| Sending.SendsWhole | src/cbcast/send.c:34-57 | a call with up to 65535 bytes queues one DATA message with the next clock and the whole payload, then only retransmissions |
| Sending.TurnIs | src/cbcast/send.c:395-435 | a turn takes the oldest entry; DATA enters the buffer last, awaiting exactly the living peers |
| Sending.TurnReaches | src/cbcast/send.c:319-366 | the datagrams of a turn: DATA to every living peer and no other, anything else to its one address |
| Nodes.Node.Broadcast | src/cbcast/send.c:326-345 | the target bitmap holds exactly the living peers the message goes to |
| Nodes.Node.TakeOutgoing | src/cbcast/send.c:401-403 | takes the oldest entry of the send queue |
| Nodes.Node.BufferSent | src/cbcast/send.c:424-432 | the message enters the buffer last, with its target, which survives 16 bits, and an empty bitmap |
| Nodes.Node.SendTurn | src/cbcast/send.c:395-515 | one turn of the send thread: the oldest entry is taken, DATA goes to every living peer and into the buffer with them as its target, anything else to its one address |
| Bitmaps.SameBits | src/cbcast/send.c:149 | comparing bitmaps compares the sets of peers they stand for |
| Delivery.DrainIsMaximalRun | src/cbcast/receive.c:216-250 | what is drained is a run of consecutive clocks of that sender, all held before, and no message that would continue it stays |
| Delivery.DrainConserves | src/cbcast/receive.c:233-235 | draining neither loses nor copies a message |
| Delivery.DrainLeavesOthers | src/cbcast/receive.c:223 | held messages of other senders stay, each as often as before |
| Delivery.DrainOrderFree | src/cbcast/receive.c:234 | the order in which `arrdelswap` left the buffer makes no difference to what is delivered, nor in which order |
| Receiving.HandleDataHoldsOnce | src/cbcast/receive.c:311-331 | no message is ever held twice |
| Receiving.ExitsIff | src/cbcast/receive.c:252-282 | a data message ends the process if and only if its clock is 65535 or it is a DATA message that has been delivered before |
| Receiving.UsableIff | src/cbcast/receive.c:131-135 | the clocks a sender may use are exactly those the receiver of the next message survives |
| Receiving.StaleIsAcknowledged | src/cbcast/receive.c:268-282 | a retransmission that is not new is acknowledged once more, and nothing else changes |
| Receiving.RepliesAre | src/cbcast/receive.c:252-338 | a data message makes the node queue one acknowledgement of its clock, and if it comes early one request for the clock after the last delivered one; nothing of the send side changes |
| Receiving.ArrivalIs | src/cbcast/receive.c:252-338 | the next message is delivered and counted, a later one is held once, one that is not new is dropped |
| Receiving.RequestIsAnswered | src/cbcast/receive.c:380-425 | a request is answered with one retransmission, to the peer that asked, if and only if the message is buffered |
| Receiving.DrainedUnlessLeft | src/cbcast/receive.c:290-297 | after a call every held message of the sender still waits for another one, if and only if the call was not a DATA message whose successor is held |
| Receiving.OtherSendersUntouched | src/cbcast/receive.c:252-338 | a call for one sender leaves the clocks, held and delivered messages of all others alone |
| Receiving.BuffersConserve | src/cbcast/receive.c:252-338 | held and delivered messages together gain the arriving message, or nothing if it was there before |
| Receiving.ReorderingStrands | src/cbcast/receive.c:290-297 | a concrete context, all payloads non-empty, in which an early arrival is left behind with all its predecessors delivered and no request queued |
| Retention.AckRetiresOnLast | src/cbcast/receive.c:350-377 | an acknowledgement retires its message exactly if it is the last one missing, and touches no other |
| Retention.AckIsIdempotent | src/cbcast/receive.c:361-364 | a repeated acknowledgement changes nothing, and one that comes before its message is buffered changes nothing |
| Retention.AgesInNumbers | src/cbcast/send.c:170-249 | a message is old from age 2 on if it is not fully acknowledged, and dead from age 6 on |
| Retention.NamesNobodyIff | src/cbcast/send.c:72-89 | no peer is named if and only if there are no messages or one of them misses nobody; otherwise exactly the missing peers are |
| Retention.FoundInOrder | src/cbcast/send.c:72-89 | each message adds to the list, in the order of the peers, those it misses that are not listed yet |
| Retention.CollectMembers | src/cbcast/send.c:72-89 | the list of dead peers has no duplicates and holds exactly the peers some message misses |
| Retention.RoundIsComplete | src/cbcast/send.c:251-271 | if every message misses a peer, there is exactly one retransmission per message and missing peer, and the early return is not taken |
| Retention.RoundStopsAt | src/cbcast/send.c:258-261 | at the last message of the list that misses nobody the round stops, and the messages before it are skipped |
| Retention.RoundCoversIff | src/cbcast/send.c:251-271 | the early return skips nothing that is due if and only if the messages that miss nobody come first |
| Retention.RoundNewestFirst | src/cbcast/send.c:251-271 | the retransmissions of a round go from the newest message to the oldest |
| Ageing.DeclaresTheSilent | src/cbcast/send.c:72-89 | a first declaration names, once each, exactly the peers that miss a message of age 6 or more; their number never exceeds the peers, so the remainder tested is not negative |
| Ageing.RoundDeclares | src/cbcast/send.c:91-168 | after a round exactly those peers are dead and get no more broadcasts; clocks and the receive side are not touched |
| Ageing.RoundDisconnects | src/cbcast/send.c:105-124 | a round disconnects the node if and only if it declares peers and leaves none, or fewer than half |
| Ageing.RoundKeeps | src/cbcast/send.c:137-158 | a round keeps buffered exactly the messages that some living peer misses, with the dead ones counted as acknowledged |
| Ageing.PurgeKeepsTheNeeded | src/cbcast/send.c:137-158 | a message stays after a declaration exactly if a peer that is not declared dead still misses it |
| Ageing.RoundBoundsBuffer | src/cbcast/send.c:172-199 | after a round, up to the first declaration included, no buffered message has age 6 and at most six are left |
| Ageing.QuietRound | src/cbcast/send.c:233-317 | a round without dead peers changes only the queue, which gains exactly one retransmission for every message of age 2 to 5 and peer that misses it |
| Ageing.RoundQueuesAllIff | src/cbcast/send.c:172-271 | a round adds to the send queue all retransmissions due to living peers if and only if no message of age 2 to 5 that misses only silent peers comes after one that misses a living peer |
| Ageing.DeclarationCutsRoundShort | src/cbcast/send.c:258-261 | a concrete context, all payloads non-empty, in which a round that declares a peer queues nothing although a retransmission to a living peer is due and its message stays buffered |
| ClusterRuns.StepKeepsInv | src/cbcast/send.c:424-432 | every critical section of every thread, every loss, reordering and duplication keeps the invariant, with acknowledgements that arrive before their message is buffered |
| ClusterRuns.RunKeepsInv | src/cbcast/receive.c:282-290 | the invariant holds in every state of every run, with messages acknowledged but not yet stored |
| ClusterRuns.ReceiptsStay | src/cbcast/receive.c:216-338 | nothing received, logged or buffered is ever taken back |
| ClusterRuns.FifoPrefix | src/cbcast/receive.c:33-57 | exactly once and in order: what a node consumed and has queued of a sender is the beginning of what that sender sent, up to the node's clock for it |
| ClusterRuns.SendSideConserves | src/cbcast/send.c:401-435 | every clock handed out is in exactly one place: on its way to the buffer, buffered, retired, or purged |
| ClusterRuns.ClocksLeaveInOrder | src/cbcast/send.c:384-435 | sent buffer, the send thread's hand and the send queue, in this order, carry strictly increasing clocks |
| ClusterRuns.Recoverable | src/cbcast/receive.c:252-378 | before a declaration, a message a peer has not received is still on its way to the buffer, or buffered with that peer's bit unset |
| ClusterRuns.AcksAreBacked | src/cbcast/receive.c:340-378 | every acknowledgement in flight is backed by a receipt; up to the sender's first declaration so is every registered one, and retired messages have been received by all peers |
| ClusterRuns.GapRequestsAreServed | src/cbcast/receive.c:403-408 | before a declaration, a request that finds no message comes from a peer that has received it |
| ClusterRuns.UndeclaredInRuns | src/cbcast/send.c:172-199 | in every state before a declaration the context is one the results about single rounds apply to |
| ClusterRuns.RoundsBoundBuffers | src/cbcast/send.c:172-199 | in every state of a run before a declaration, an uninterrupted round leaves at most six messages in the buffer |
| FifoLinks.FifoRunIsRun | src/cbcast/send.c:355-366 | a run on links that only lose is a run on the weaker network, so all results for runs apply |
| FifoLinks.NoExitNoneStranded | src/cbcast/receive.c:267-300 | on such links the exit for a stale DATA message is never reached, and every held message waits for one that is missing |
| FifoLinks.QuietSenderIsComplete | src/cbcast/receive.c:340-378 | on such links, when a sender has nothing unsent and nothing unacknowledged, every idle peer has been given all of its messages in order and holds none |
| Repair.EveryGapCanClose | src/cbcast/receive.c:302-425 | on such links, in every state of every run, if a sender that has declared nobody dead and is not about to can send once more, the run can go on so that a peer is given the next message it lacks: it holds the later one, asks, and is answered from the buffer |
| Repair.HeldShowsGap | src/cbcast/receive.c:302-338 | on such links, whoever holds a message lacks an earlier one that its sender has buffered |
| Overtaking.OvertakenIsLeftBehind | src/cbcast/receive.c:284-299 | on links that reorder, a run of two nodes ends with both threads of the receiver idle, the message it waits for held, and the sender without a copy and with nothing left to send |
| Overtaking.NeverSentAgain | src/cbcast/send.c:251-435 | in every run, a message that has left the buffer and is not on its way out never leaves its node again |
| Overtaking.OnlyACopyHelps | src/cbcast/receive.c:252-300 | in every run, the clock for a sender stays until the receive thread works on a copy of the message after it |
| Halting.HaltsOnlyAtStale | src/cbcast/receive.c:268-275 | in every run, the step that ends a process finds its receive thread at a DATA message delivered before, and such a thread can only end |
| Halting.NeverGetsPast | src/cbcast/receive.c:268-275 | in every run, a process whose receive thread has taken such a message stays there or has ended |
| Halting.OvertakenByItsCopy | src/cbcast/receive.c:268-275 | on links that reorder, a run of two nodes in which a retransmission overtakes its original, and the original ends the receiver, which has been given everything |
| Connection.DispatchIsSteps | src/cbcast/receive.c:107-125 | any datagram handled without interruption is a sequence of steps with the same outcome, exits included |
| Connection.HandleOldIsSteps | src/cbcast/send.c:172-199 | one ageing round is a sequence of steps with the same outcome |
| Connection.SendIsSteps | src/cbcast/send.c:25-60 | one call of `cbc_send` is a sequence of steps with the same outcome, for every payload; a call that returns an error changes nothing |
| Connection.SendTurnIsSteps | src/cbcast/send.c:395-515 | one turn of the send thread is a sequence of steps with the same outcome, which gives the network one datagram for each living peer, or for the one address |
| Connection.TakeInRuns | src/cbcast/receive.c:72-106 | every run can go on with any datagram that ever left, taken by its idle receiver |
| Connection.DispatchInRuns | src/cbcast/receive.c:107-125 | every run can go on with a datagram handled as one call |
| Connection.SendInRuns | src/cbcast/send.c:25-60 | every run can go on with a whole call of `cbc_send`, for every payload |
| Connection.ReceiveInRuns | src/cbcast/receive.c:33-57 | every run can go on with a call of `cbc_receive`, which moves the oldest delivered message to the consumed ones or finds nothing |
| Connection.SendTurnInRuns | src/cbcast/send.c:395-515 | every run can go on with a turn of the send thread that loses nothing |
| Wire.CreateMsg | src/cbcast/message.c:22-35 | the created message in every case: header only, payload with terminator, empty payload refused, unknown kind exits |
| Wire.MemCpy | src/cbcast/message.c:263-266 | copies the bytes to their place and changes no others |
| Wire.SerializeFull | src/cbcast/message.c:242-272 | header and payload with its terminator, or nothing for an empty payload |
| Wire.Serialize | src/cbcast/message.c:50-67 | the bytes of every kind of message |
| Wire.Deserialize | src/cbcast/message.c:69-126 | the message read from a buffer, or the error for length zero; unknown kinds are read like payload messages |
| Wire.HeaderReadsBack | include/cbcast.h:29-34 | four bytes of kind and two each of clock and length read back to the same header |
| Wire.ControlBytes | include/cbcast.h:21-34 | the eight bytes of an acknowledgement and of a request: kind 2 or 3, clock, no length, low bytes first |
| Wire.PayloadBytes | src/cbcast/message.c:242-272 | the bytes of DATA and RETRANSMIT: kind 1 or 4, clock, length, payload, terminator |
| Wire.CutsTheTerminator | src/cbcast/receive.c:78-90 | cutting a datagram to the size its header gives removes exactly the terminator |
| Wire.SurvivesIff | src/cbcast/message.c:215-299 | a message comes back unchanged from serialising, cutting and reading if and only if its length fits its kind and its payload ends with the terminator |
| Wire.MessagesTravel | src/cbcast/message.c:50-126 | every message of the protocol arrives with its kind, clock and payload |
| Wire.WholePayloadIff | src/cbcast/send.c:34 | the message `cbc_send` creates keeps all of a payload if and only if it is shorter than 65536 bytes; exactly for multiples of 65536 none is created |
| Wire.CreatedIsKept | src/cbcast/message.c:22-35 | the message created for `cbc_send` holds exactly what is kept of the payload, with its terminator |
| Wire.LeavesWholeIff | src/cbcast/send.c:348-366 | the message keeps all of a payload and its bytes fit a socket's limit if and only if the payload is shorter than 65536 bytes and fits with header and terminator |
| Wire.LeavesByUdpIff | src/cbcast/send.c:348-366 | a payload can leave whole by UDP over IPv4 if and only if it has at most 65498 bytes |
| Locks.NoCircle | src/cbcast/send.c:127-164 | in no state of any interleaving do threads wait for each other's locks in a circle |
| Locks.SomeoneGoesOn | src/cbcast/receive.c:284-299 | whenever a thread waits for a lock, a thread that holds one can take a step at once |
| Locks.MutualExclusion | src/cbcast/send.c:127-164 | in every run, between two takings of a lock the first taker has released it |
| Locks.SomeoneWaits | src/cbcast/send.c:384-403 | a run in which a thread waits for a lock another one holds |
| Locks.RecvThreadInOrder | src/cbcast/receive.c:59-425 | the receive thread takes locks in the order send, recv, and then one of peer, clock and statistics, and ends holding none |
| Locks.SendThreadInOrder | src/cbcast/send.c:384-516 | so does the send thread, and it sleeps holding no other lock |
| Locks.AppThreadInOrder | src/cbcast/send.c:25-317 | so does the application, through receiving, sending with its ageing round, and collecting statistics |
| Locks.DeclarationInOrder | src/cbcast/send.c:91-168 | so does a declaration, which nests three locks |
| Wakeup.CallsAnnounce | src/cbcast/send.c:36-57 | in the text of every call that uses send_lock, each queued message is followed by a signal outside the lock, although a whole ageing round relies on one |
| Wakeup.NoLostWakeup | src/cbcast/send.c:396-403 | in every run, if the send thread sleeps while the queue is not empty, some thread is in its call between a queued message and a signal still ahead |
| Wakeup.QueueConserves | src/cbcast/send.c:51-57 | in every run the queue holds as many messages as the calls have put there and the send thread has not taken |
| Wakeup.SleepsOverMessage | src/cbcast/receive.c:153-157 | a run in which the send thread sleeps while a message has been queued and not yet announced |
| Wakeup.QuietMeansEmpty | src/cbcast/receive.c:131-214 | in every run, when all calls have returned, a sleeping send thread has an empty queue |
| Wakeup.WakeupComes | src/cbcast/receive.c:380-425 | from every such state the calls under way, executed further by themselves, wake the send thread |
| ProbeSequence.WrapIs | include/lib/stb_ds.h:868 | a wrapped position is the remainder of dividing by the number of slots |
| ProbeSequence.TriApart | include/lib/stb_ds.h:1274-1277 | the first 2^k triangular numbers differ modulo 2^k |
| ProbeSequence.ProbeIsPermutation | include/lib/stb_ds.h:1247-1278 | with a power of two of buckets, steps of 8, 16, 24 and so on look at every slot exactly once before any slot a second time |
| SlotTables.WriteKeepsWellFormed | include/lib/stb_ds.h:1499-1500 | overwriting a slot with a tombstone, or with an entry on the path of its hash, leaves no stored hash behind an empty slot |
| SlotTables.SearchMayStop | include/lib/stb_ds.h:1257-1259 | a search may stop at the first empty slot: it has seen every slot with that hash |
| SlotTables.EmptyEndsSearch | include/lib/stb_ds.h:1247-1278 | an empty slot bounds the number of steps of every search |
| SlotTables.CountsAddUp | include/lib/stb_ds.h:935-936 | used slots, tombstones and empty slots are all slots, so one is empty as long as the counters do not fill the index |
| SlotTables.LinkAdd | include/lib/stb_ds.h:1448-1450 | a new slot for a new last entry keeps slots in use and entries in bijection |
| SlotTables.LinkMove | include/lib/stb_ds.h:1507-1522 | so does making the slot of the last entry lead to the place of the deleted one |
| HashIndexes.ThresholdsLeaveRoom | include/lib/stb_ds.h:904-936 | the thresholds for used slots and tombstones together stay below the number of slots |
| HashIndexes.ThresholdsInNumbers | include/lib/stb_ds.h:904-936 | an index is full at three quarters, too empty below a quarter unless it has eight slots, and has too many tombstones beyond three sixteenths |
| HashIndexes.HashIndex.EmptySlotFor | include/lib/stb_ds.h:973-1004 | the probe loop of a rehash ends, at the first empty slot on the path |
| HashIndexes.HashIndex.CopyFrom | include/lib/stb_ds.h:963-1010 | every used slot of the old index is entered once and nothing else |
| HashIndexes.MakeHashIndex | include/lib/stb_ds.h:885-1012 | growing, shrinking and rebuilding keep exactly the used slots, each hash with its index, drop all tombstones, and leave every hash reachable |
| HashMaps.HashMap.ValidIsSearchable | include/lib/stb_ds.h:935-936 | between operations the used slots and tombstones never fill the index, so every search meets an empty slot, and no slot points beyond the entries |
| HashMaps.HashMap.FindSlot | include/lib/stb_ds.h:1233-1280 | ends, and finds a slot that leads to the key, or -1 if no slot does; also in the middle of a deletion |
| HashMaps.HashMap.FindEnd | include/lib/stb_ds.h:1372-1429 | the probe loop of an insertion ends at the key or at the first empty slot, and has kept the first tombstone before it |
| HashMaps.HashMap.FindPlace | include/lib/stb_ds.h:1430-1434 | a new key goes to the first slot on its path that is not in use |
| HashMaps.HashMap.Get | include/lib/stb_ds.h:1282-1311 | the index of the entry with the key, with the value the map has for it, or -1 if and only if the map does not have the key |
| HashMaps.HashMap.Grow | include/lib/stb_ds.h:1358-1370 | a first index of eight slots or one of twice the size, with the same entries, no tombstones, and room for one more |
| HashMaps.HashMap.EnsureRoom | include/lib/stb_ds.h:1358-1370 | the first index has one bucket of eight slots, and an index doubles when six entries per bucket are there |
| HashMaps.HashMap.Put | include/lib/stb_ds.h:1338-1460 | afterwards the map is the old one with that key and value; an old key keeps its place, a new one comes last; the index doubles exactly when it held six entries per bucket |
| HashMaps.HashMap.Remove | include/lib/stb_ds.h:1490-1522 | the slot becomes a tombstone, the last entry moves to the free place, and its slot follows |
| HashMaps.HashMap.Trim | include/lib/stb_ds.h:1524-1531 | the index is halved exactly if it has more than one bucket and fewer than two entries per bucket, and has no tombstones left if there were too many |
| HashMaps.HashMap.Del | include/lib/stb_ds.h:1473-1539 | afterwards the map is the old one without that key; 1 if it was there, else 0 and no entry moved; the index is halved exactly when it has become too empty |
| HashMaps.LastPutCounts | include/lib/stb_ds.h:1233-1539 | after any sequence of operations a key has a value if and only if the last operation on the key put that value |
| HashMaps.Replay | include/lib/stb_ds.h:1338-1539 | for any hash function and any sequence of operations, the map holds what the sequence means |

## Left out

- Sockets, addresses, `sendto`, `recvfrom` and the random drops of the network simulation: datagrams travel between pids, and a step chooses whether one is lost.
- Statistics, JSON, curl, dashboards, and the process and shared-memory set-up of `main.c`; of the statistics only the locks they take.
- Allocation failure, `free`, and the lifetime of memory across threads: messages are values, and a message that was freed while an ageing round still lists it is seen with its last contents.
- `cbc_stop` and thread cancellation.
- Claims about acknowledgements and retransmission requests after a sender's first declaration of dead peers: they do not hold there.
- Clocks beyond 65534, where 16-bit clocks wrap around.
- Cluster.Local: an ageing round may retransmit any buffered messages to any peers, and declare any peers dead, which is more than the code does; which ones it does choose is proved in `Ageing`.
- Repair.EveryGapCanClose: the gap that closes is the next missing message, with what is held right behind it; a gap of several messages needs as many questions, and between them the sender may declare its peer dead.
- Nodes.CreateNode: peers with pids of 16 or more, which a bitmap of 16 bits cannot hold, and the failures of sockets and allocation in `cbc_init`.
- Nodes.Node.RequestRetransmission: reading the clock and queueing the request are one step in the cluster; only the receive thread changes that clock.
- Nodes.Node.ReceiveMsg: only messages of known peers are handed to it; datagrams of strangers are dropped before.
- Bitmaps.SameBits: bitmaps are numbers with binary digits below 16; shifts and 64-bit words are not modelled.
- HashIndexes.HashIndex.EmptySlotFor: the buckets of eight hashes and eight indexes are one array of pairs, and `& (slot_count - 1)` is repeated subtraction of `slot_count`, which is the same for a power of two.
- HashMaps.HashMap.Put: the hash function is any function of the key, shifted by 2 if below 2; the seed, string keys, the string arena and the default entry are not modelled, and the macro's write of the value is part of the operation.
- Locks.NoCircle: waiting on the condition variable gives the lock back and takes it again; whether a wait happens is left to chance here and treated in `Wakeup`.
- The files under `test/`, which the build no longer compiles.
