# Homa transport: a verified model

This project models the hard core of a Linux kernel implementation of the Homa RPC
transport in Dafny 4.11 and proves what its parts are for. To check it, use
`dafny verify dfyconfig.toml`.

Four parts of the transport are modelled.

- **Grants** (`Basics`, `RankedLists`, `GrantQueues`, `GrantQueueProofs`, `GrantSched`, `GrantRuns`,
  `GrantRanks`, `GrantAmounts`, `GrantChoices`, `Candidates`, `GrantManager`, `GrantTraces`, `GrantFlow`,
  `Sums`). The receiver decides which
  senders may send how much. `GrantSched` is the scheduler as a state machine over values and
  `GrantRuns` its theorems over all runs. `GrantManager.Grant` is the same scheduler in place, with
  the array of active RPCs shifted and sorted element by element and the redundant ranks and
  counts; every method is proved to do what the state machine does, and `RunInPlace` makes whole runs.
  `GrantAmounts` says how large each grant is. `GrantFlow` is the control flow above that, with the candidate
  ring of `Candidates`, the reference counts that go with it, the GRANT packets sent, and other threads that
  end RPCs at the same time.
- **Message transfer** (`PacketGeometry`, `Reassembly`, `LossRecovery`, `GrantSafety`, `Delivery`,
  `AckSafety`, `Handoff`). How a message is cut, sent under grants, received as a gap list,
  recovered after loss, put in order, acknowledged, and handed to a waiting thread. `GrantSafety`
  puts sender, receiver and a network that loses, repeats and reorders together in one state machine.
- **Receive buffers** (`PagePool`, `BufferPool`, `BufferMap`). Reference-counted pages, pages owned by
  cores, stealing, and the two address maps of kernel and application.
- **Output queuing** (`SrptTree`, `OutputShare`, `TcpShare`). The tree of deferred RPCs whose keys
  change in place, the credit that shares the uplink between Homa and TCP, and the round robin among
  TCP queues.

How the model is set up:

- A procedure that the kernel runs under a lock is one atomic step. Clocks, the core a thread runs
  on, memory allocation failures, the state of the NIC and the choice of a waiting thread are
  parameters or nondeterministic.
- RPCs, peers and threads are named by numbers. Lists that the kernel links through its objects are
  sequences; fixed arrays are arrays.
- Integers are unbounded. Message lengths, offsets and byte counts of the kernel stay far below its
  limits; `INT_MAX` is kept where the code uses it as a mark.
- The configuration is fixed during a run: `max_overcommit` between 1 and `HOMA_MAX_GRANTS`,
  `max_rpcs_per_peer` at least 1, `tcp_credit_increment` positive, and an MTU that leaves room for
  data. DATA packets are not empty.

Where code and documentation differ the model follows the code, and the members named here state
when the difference shows:

- `homa_rpc_tx_end` is documented to return the first offset not yet transmitted. For a message that
  is only partly copied from user space and all of that part out, it returns the length, and a RESEND
  for everything sent then raises the granted offset too far (`GrantSafety.ResendBoundIff`,
  `GrantSafety.PartlyCopiedOvergrants`).
- `homa::receiver::copy_out` is documented to copy `count` bytes. It copies whole chunks
  (`BufferMap.CopyOut`, `BufferMap.CopyOutOverruns`).
- `homa_rpc_abort` is documented to return its error to the application. The error is overwritten
  when a thread is copying packets of the RPC, complete or not (`Handoff.AbortMisreportedIff`,
  `Handoff.CopyingReached`).
- `homa_peer_add_ack` is documented to make sure that the RPC is acked in the end. An ack put into a packet
  is lost when the packet is freed before it is sent (`AckSafety.AckLostIff`, `AckSafety.AckLost`). A
  later NEED_ACK is still answered (`AckSafety.NeedAckAnswered`).
- `credit` of a TCP qdisc is documented to share bandwidth equally. What is sent is equal but for turns
  that a qdisc is given without credit (`TcpShare.SharesDifferBySkips`), so equal while no qdisc runs out
  of packets (`TcpShare.FairShare`). When one does, the next in turn is passed over
  (`TcpShare.PassedOverIff`), possibly forever (`TcpShare.Starvation`).
- `bpages_needed` is documented to be what the first waiting RPC needs. Ending the first waiting RPC
  leaves it too small if the next one needs more, which costs a futile attempt but strands nobody
  (`BufferPool.Pool.Withdraw`, `BufferPool.StaleNeed`, `BufferPool.Pool.CheckWaiting`).

## Model

| member | source | states |
|---|---|---|
| GrantRuns.EveryRun | homa_grant.c:273-579 | in every run of the scheduler from its initial state, the whole invariant holds: list structure and order, both limits, work conservation, byte accounting, window size, count of managed RPCs, validity of oldest_rpc |
| GrantRuns.IncomingBudget | homa_grant.c:589-658 | in every run total_incoming is the sum of rec_incoming over live RPCs, and exceeds max_incoming by no more than the unscheduled and FIFO-granted bytes of live RPCs |
| GrantRuns.WindowGrantWithinBudget | homa_grant.c:615-658 | in every reachable state a window grant that raises total_incoming leaves it at most max_incoming, and grants more than before but no more than the message and the window |
| GrantRuns.PlacesAndWorkConservation | homa_grant.c:501-537 | in every reachable state no waiting RPC is active, at most max_overcommit RPCs are active and at most max_rpcs_per_peer per peer, num_grantable_rpcs counts the managed RPCs, and an RPC waits only if active_rpcs is full or its peer has all it may have |
| GrantRuns.WaitingListsSorted | homa_grant.c:356-440 | in every reachable state each peer's list is in order of ungranted bytes and, among equals, of birth; grantable_peers is in that order of its heads and holds exactly the peers with a non-empty list |
| GrantRuns.ApplyOk | homa_grant.c:448-579 | each single step (arrival, manage, unmanage, window grant, FIFO grant, reordering, choice of the oldest, end) keeps the invariant |
| GrantRuns.RunKeepsInv | homa_grant.c:148-193 | any sequence of steps keeps the invariant from any state that has it |
| GrantRuns.FixOrderOk | homa_grant.c:823-846 | the result of homa_grant_fix_order is a permutation of active_rpcs, in order of ungranted bytes and then of birth, with the same number of RPCs per peer; below the returned rank nothing moved and the RPC at that rank came from a worse one; INT_MAX means that nothing moved |
| GrantRuns.FindOldestOk | homa_grant.c:853-903 | the RPC chosen is managed, has less than window plus two FIFO increments on its way, is not the top active one, and is no younger than any other such RPC; none is chosen only if there is none |
| GrantRuns.ManageOk | homa_grant.c:448-474 | managing an RPC that still needs grants keeps the invariant |
| GrantRuns.UnmanageOk | homa_grant.c:546-579 | unmanaging an RPC restores the invariant, even if the RPC has just been fully granted; the RPC is no longer managed, no other becomes so, and the RPC reported as promoted is active |
| GrantRuns.WindowGrantOk | homa_grant.c:689-751 | a window grant with all that follows from it keeps the invariant and adds nothing to the managed set |
| GrantRuns.FifoPromoteOk | homa_grant.c:961-1038 | a FIFO grant that does not complete a message keeps the invariant while the message moves up, perhaps into active_rpcs |
| GrantRuns.FifoCompleteOk | homa_grant.c:961-1038 | a FIFO grant that completes a message keeps the invariant, so the message leaves the lists, and the RPC reported as promoted is active |
| GrantAmounts.UpdateGrantedIff | homa_grant.c:615-658 | a grant is due if and only if the RPC is active, its peer responds, it does not have all its grants, and some offset beyond its own lies within the message, within the window and within the byte budget; the new offset is the largest such, and nothing else changes but the stalled rank, which goes down to the RPC's exactly if the budget is what limits the grant |
| GrantAmounts.WindowGrantExact | homa_grant.c:1075-1089 | after a window grant with all that follows the RPC has exactly that offset, its bytes are accounted for, no other message has changed, and as long as it is managed another window grant adds nothing |
| GrantAmounts.FifoGrantExact | homa_grant.c:1018-1033 | a FIFO grant in any state that has the invariant adds fifo_grant_increment bytes or what is left of the message, accounts for them, changes no other message, and the RPC is managed afterwards exactly if it still needs grants |
| GrantAmounts.IncomingExact | homa_grant.c:589-602 | rec_incoming becomes what has been granted and not received, or 0, and total_incoming changes by the same amount |
| GrantAmounts.WindowShare | homa_grant.c:201-219 | the window is the parameter, or the largest share of max_incoming that leaves as much again for one newcomer |
| GrantQueueProofs.AdmitOk | homa_grant.c:273-345 | inserting an RPC, with the RPC it displaces going back to its peer's list, keeps all lists, orders and limits and manages just that RPC in addition |
| GrantQueueProofs.AdmitConserves | homa_grant.c:273-345 | admission never leaves a slot unused that a waiting RPC may have, nor changes the number of active RPCs when there was no room |
| GrantQueueProofs.RemoveActiveOk | homa_grant.c:501-537 | removing an active RPC keeps all lists and limits, and the freed slot is used if any waiting RPC may use it |
| GrantQueueProofs.RefillOk | homa_grant.c:520-535 | the refill loop either fills the free slot with a head whose peer has room or shows that every waiting peer is at its limit |
| GrantQueueProofs.InsertGrantableOk | homa_grant.c:419-440 | adding an RPC to its peer's list keeps that list and grantable_peers in order |
| GrantQueueProofs.RemoveGrantableOk | homa_grant.c:482-493 | removing an RPC keeps its peer's list and grantable_peers in order, even if the RPC's own priority has just changed |
| GrantQueueProofs.AdjustPeerOk | homa_grant.c:356-411 | after a change to one peer's list, adjusting restores the order of grantable_peers and its membership |
| GrantQueueProofs.PromoteOk | homa_grant.c:915-953 | after an RPC's priority rose, promoting it restores all orders, keeps work conservation and the number of active RPCs, and leaves the managed set as it was |
| GrantQueueProofs.ExpelOk | homa_grant.c:546-579 | taking an RPC out of whichever list it is in keeps every list invariant and work conservation, and manages nothing else |
| GrantChoices.InsertActiveByPriority | homa_grant.c:273-345 | when active_rpcs is in order it stays so; an RPC is turned away if and only if its peer has all its places and it outranks none of them, or all places are taken and it outranks no active RPC; an RPC that is displaced is outranked by the new one and is the lowest-priority one of those it is chosen from |
| GrantChoices.InsertActiveInAnyOrder | homa_grant.c:273-345 | for active_rpcs in any order: an RPC is turned away if and only if its peer has all its places and none of the peer's RPCs is in the stretch at the end that it outranks, or all places are taken and it does not outrank the last; it is always turned away when it outranks nobody it competes with; otherwise it comes right behind an RPC it does not outrank and outranks all behind it, and what makes way is the last RPC of that stretch, or the last of its peer there if the peer has all its places |
| GrantChoices.AdmitPlaces | homa_grant.c:448-474 | managing an RPC makes it active exactly if it is not turned away, and whoever does not get or keep a place is in its peer's list |
| GrantChoices.PromotePlaces | homa_grant.c:915-936 | a waiting RPC whose priority rose becomes active if and only if there is a place or it outranks the last active RPC, and it is not turned away |
| GrantChoices.RefillByPriority | homa_grant.c:520-535 | if a waiting RPC's peer has room a free place is filled, with an RPC that no such waiting RPC outranks |
| RankedLists.ResettleSorted | homa_grant.c:374-409 | moving one element up while it outranks its predecessor and then down while its successor outranks it sorts a list in which all others were in order |
| RankedLists.PlaceSorted | homa_grant.c:424-434 | inserting in front of the first element that the new one outranks keeps a list sorted |
| RankedLists.MoveUpSorted | homa_grant.c:938-951 | when one element of a sorted list has only risen, moving it up sorts the list again |
| RankedLists.SortedByNumbers | homa_grant.c:229-242 | a list is sorted if and only if it is in order of ungranted bytes and, among equals, of birth |
| GrantManager.Grant.constructor | homa_grant.c:86-122 | a new scheduler is valid and represents the initial state |
| GrantManager.Grant.FindSlot | homa_grant.c:273-316 | the backward scan finds the place for the RPC and the last RPC of its peer behind that place |
| GrantManager.Grant.InsertActive | homa_grant.c:273-345 | active_rpcs, ranks and counts become those of the insertion function; the RPC that has to wait is the one of the same peer if the peer is at its limit, else the last one if there is no room |
| GrantManager.Grant.AdjustPeer | homa_grant.c:356-411 | grantable_peers becomes what the adjustment function says |
| GrantManager.Grant.InsertGrantable | homa_grant.c:419-440 | the peer's list and grantable_peers become those of the insertion function |
| GrantManager.Grant.RemoveGrantable | homa_grant.c:482-493 | the peer's list and grantable_peers become those of the removal function |
| GrantManager.Grant.RemoveActive | homa_grant.c:501-537 | ranks are closed up, the peer's count goes down, and the best waiting RPC whose peer has room is pulled in |
| GrantManager.Grant.UnmanageRpc | homa_grant.c:546-579 | the scheduler becomes the unmanaged state and the promoted RPC is reported, with all redundant fields still matching |
| GrantManager.Grant.ManageRpc | homa_grant.c:448-474 | the scheduler becomes the managed state, with all redundant fields still matching |
| GrantManager.Grant.UpdateIncoming | homa_grant.c:589-602 | total_incoming and rec_incoming change by the same amount, to the granted bytes not yet received |
| GrantManager.Grant.UpdateGranted | homa_grant.c:615-658 | the grant, the stalled rank and the result are those of the specification function, which GrantAmounts.UpdateGrantedIff characterises |
| GrantManager.Grant.FixOrder | homa_grant.c:823-846 | active_rpcs is sorted in place with ranks following, and the best improved rank is returned |
| GrantManager.Grant.PromoteRpc | homa_grant.c:915-953 | an RPC whose priority rose moves up in its list, with its peer if it becomes the head, or into active_rpcs in place of the worst |
| GrantManager.Grant.FindOldest | homa_grant.c:853-903 | oldest_rpc becomes the choice of the specification function |
| GrantManager.Grant.GrantOne | homa_grant.c:1075-1089 | one RPC is granted what window and budget allow and leaves management when complete; the promoted RPC is reported |
| GrantManager.Grant.GrantFifo | homa_grant.c:1007-1037 | the chosen RPC gets fifo_grant_increment more bytes, is promoted or, when complete, unmanaged |
| GrantManager.Grant.InitRpc | homa_grant.c:148-164 | a new RPC has its unscheduled bytes granted and rank -1, and ranks and counts still match |
| GrantManager.Grant.EndRpc | homa_grant.c:173-193 | the RPC leaves the lists and its bytes leave total_incoming; the promoted RPC is reported, and ranks and counts still match |
| GrantManager.Grant.Perform | homa_grant.c:148-193 | every step of the state machine, done in place, gives the state that the machine has after that step, with ranks and counts matching |
| GrantManager.RunInPlace | homa_grant.c:501-537 | every run of the scheduler, made in place from a new scheduler, ends in the state of the state machine, and there active_rpcs[i].rank is i for every i, the rank of every other RPC is -1, and every peer's active_rpcs is the number of its RPCs in active_rpcs |
| CandidateRing.EntriesAppend | homa_grant.c:1049-1057 | writing the slot for the insert counter appends to the ring's contents and overwrites no unprocessed entry as long as the ring is not full |
| CandidateRing.Candidates.constructor | homa_grant.h:272-276 | a new ring is empty |
| CandidateRing.Candidates.Add | homa_grant.c:1049-1057 | an RPC is appended if and only if fewer than eight entries are unprocessed |
| CandidateRing.Candidates.Take | homa_grant.c:1073-1076 | the oldest unprocessed entry is returned and removed |
| GrantFlow.CandAdd | homa_grant.c:1049-1057 | a candidate put into the ring takes exactly one reference, and none is taken when the ring is full |
| GrantFlow.UnmanageRpc | homa_grant.c:546-579 | the scheduler becomes the unmanaged state; the promoted RPC goes into the ring with a reference, and the reference of oldest_rpc is dropped exactly if that is the RPC |
| GrantFlow.Others | homa_rpc.c:269-338 | other threads may mark any RPC that is not locked dead and end those marked, which drops the reference of oldest_rpc when that one ends; the invariant is kept and no RPC starts to be managed |
| GrantFlow.CandStep | homa_grant.c:1068-1096 | one round is a window grant to the oldest candidate, sent if it grew, or nothing if the candidate is dead, and its reference is dropped either way; an RPC pulled in by it becomes a candidate; either fewer RPCs are managed afterwards or the ring has become shorter |
| GrantFlow.CandCheck | homa_grant.c:1068-1096 | while other threads end RPCs between the rounds, the loop ends although it adds candidates; every candidate, and every RPC pulled into active_rpcs on the way, has been given its window grant or is dead; it is a run of scheduler steps whose GRANT packets have been sent, and every reference taken for the ring has been dropped once |
| GrantFlow.RefreshOldest | homa_grant.c:975-1006 | oldest_rpc is put and dropped if it no longer responds, and a new one is chosen and held if there is none; one reference goes with it before and after |
| GrantFlow.CheckFifo | homa_grant.c:961-1038 | when it is due and there is an RPC to choose, that RPC gets its FIFO grant unless it has died before it could be locked; a run of scheduler steps whose GRANT packets have been sent, with references balanced |
| GrantFlow.ChoiceExists | homa_grant.c:975-1006 | there is an RPC to choose whenever some managed RPC other than the first active one has less than window plus two FIFO increments on its way |
| GrantFlow.FastPath | homa_grant.c:758-790 | the RPC that data arrived for gets its window grant first; if that grew, RPCs pulled in get theirs and a FIFO grant is made if it is due |
| GrantFlow.ServeNeedy | homa_grant.c:780-814 | the first eight RPCs from the needy rank on that have less than a window on their way and are not dead get their window grant, or are dead by then; this ends, is a run of scheduler steps and balances references |
| GrantFlow.CheckRpc | homa_grant.c:689-814 | the check made when data arrives for an RPC begins with accounting and, when due, sorting; if then the RPC is active at a rank no worse than the stalled and the improved rank, it gets the largest grant that message, window and budget allow, a GRANT with that offset is sent if it is new, and then a due FIFO grant is made; if some rank is waiting and the budget has room, the first eight needy RPCs get theirs; all this while other threads end RPCs, as a run of scheduler steps with references balanced; nothing is done for an RPC that is dead or has no message or no buffers |
| GrantTraces.LeadsAnnounced | homa_grant.c:669-682 | in every such stretch of grant processing, an RPC that is still there and has another grant than before has been sent a GRANT packet with just that offset |
| GrantFlow.EndRpc | homa_grant.c:173-193 | ending an RPC takes it out of the scheduler, as a run of scheduler steps, with references balanced, while other threads end RPCs |
| GrantFlow.InitRpc | homa_grant.c:148-164 | a new message has its unscheduled bytes granted, and is managed if and only if it is longer than those and has buffer space |
| Reassembly.AddOk | homa_incoming.c:163-284 | a packet is kept if and only if it lies within the message and shares no byte with those already received (kept only if, when a gap cannot be allocated); then exactly its bytes become received, and otherwise nothing changes |
| Reassembly.FillOk | homa_incoming.c:202-254 | a packet below recv_end is kept if and only if all its bytes are missing, and then exactly those bytes leave the gaps |
| Reassembly.Complete | homa_incoming.c:163-284 | bytes_remaining is 0 if and only if there are no gaps and recv_end is the length, if and only if all bytes have been received |
| Reassembly.MessageIn.constructor | homa_incoming.c:41-60 | nothing has been received |
| Reassembly.MessageIn.AddPacket | homa_incoming.c:163-284 | gaps, recv_end, bytes_remaining and the packet queue become those of the specification, and the gap list stays valid |
| Reassembly.MessageIn.FillGap | homa_incoming.c:202-254 | the loop over the gap list fills, shortens, splits or rejects as the specification says |
| PacketGeometry.MessageOutFill | homa_outgoing.c:493-534 | the loop makes the packets of the message's fixed cut |
| PacketGeometry.PacketsTile | homa_outgoing.c:493-513 | the packets follow one another without gap or overlap, none is longer than max_gso_data and none crosses the unscheduled limit; a packet is shorter than max_gso_data only if it ends at that limit or at the end of the message |
| PacketGeometry.BlocksTile | homa_outgoing.c:493-544 | the segments of all packets partition the message, each non-empty and at most max_seg_data long |
| PacketGeometry.SegmentsFull | homa_outgoing.c:493-544 | a segment is shorter than max_seg_data only if it ends where its packet ends |
| PacketGeometry.TilesDisjoint | homa_outgoing.c:493-544 | two segments that share a byte are the same segment |
| PacketGeometry.ResendPacket | homa_outgoing.c:973-1040 | of one packet exactly the segments that hold requested bytes are resent, in order |
| PacketGeometry.ResendData | homa_outgoing.c:944-1049 | exactly the segments of the message that hold bytes of the requested range are resent, in order |
| LossRecovery.DeliverOk | homa_incoming.c:163-284 | a segment that arrives is new as a whole or received as a whole; it is kept if and only if it is new; no other segment is affected |
| LossRecovery.DeliverAllOk | homa_incoming.c:163-284 | after any arrivals, in any order and with repetitions, the receiver has exactly whole segments |
| LossRecovery.GapsOnBoundaries | homa_incoming.c:163-284 | every gap starts where a segment starts and ends where a segment ends |
| LossRecovery.NoPartialOverlap | homa_incoming.c:203-240 | the discards for partial overlap are never taken |
| LossRecovery.RequestRetrans | homa_incoming.c:110-154 | one RESEND per gap, one for granted bytes beyond recv_end if there are any, and a request for everything sent if nothing has been received |
| LossRecovery.ResendsFetchMissing | homa_incoming.c:110-154 | the answers to a round of RESENDs are exactly the missing segments that start below tx_end and also below recv_end or below the granted offset |
| LossRecovery.GapsEmptied | homa_incoming.c:110-154 | when the answers for the gaps arrive, in any order among duplicates, no gap remains and recv_end is unchanged |
| LossRecovery.Recovery | homa_incoming.c:982-1054 | whatever arrived before, once all is granted and transmitted one round of RESENDs fetches exactly what is missing, and when that arrives, in any order and with duplicates, the message is complete |
| Delivery.HoldsKept | homa_incoming.c:163-284 | the queued packets always are exactly the received bytes, each byte in one packet |
| Delivery.InOrder | homa_incoming.c:342-358 | the test accepts exactly the queues with strictly increasing offsets |
| Delivery.Insert | homa_incoming.c:370-383 | one round of the insertion sort keeps order and adds just the packet |
| Delivery.InSequence | homa_incoming.c:334-386 | the result is a sorted permutation of the queue, and the queue itself if it was in order |
| Delivery.OrderedIsContent | homa_incoming.c:323-413 | for a complete message the sorted queue has strictly increasing offsets and its payloads concatenate to the message |
| Delivery.DeliverSkbs | homa_incoming.c:304-447 | a message is handed over if and only if it is complete and not yet handed over, and then the queue is emptied; the reader gets a prefix of the message, and the whole message if and only if it reports no error for any of the packets |
| GrantSafety.MessageOut.constructor | homa_outgoing.c:159-171 | a new message has its unscheduled bytes granted and nothing sent |
| GrantSafety.MessageOut.XmitData | homa_outgoing.c:756-837 | packets are passed on in order while the next one starts below the granted offset, until the pacer lets no more through or all that has been copied is out |
| GrantSafety.MessageOut.RpcTxEnd | homa_outgoing.c:1062-1082 | the result is the offset of the first packet not yet transmitted, or the length when there is none among those copied so far |
| GrantSafety.MessageOut.GrantPkt | homa_incoming.c:951-970 | the granted offset becomes the larger of what it was and what the GRANT says, but at most the length, and everything that may be sent then is sent |
| GrantSafety.MessageOut.ResendPkt | homa_incoming.c:982-1054 | the segments resent are those that hold requested bytes below tx_end; the granted offset becomes the larger of what it was and the end of the request, but at most the length |
| GrantSafety.XmitFacts | homa_outgoing.c:756-837 | every packet sent for the first time starts below the granted offset, and sending stops only when the pacer lets no more through, all that has been copied is out, or the next packet starts at or beyond the granted offset |
| GrantSafety.GrantTaken | homa_incoming.c:951-970 | a GRANT raises the granted offset to what it says, never down and never above the length, and exactly the packets that may be sent then are sent |
| GrantSafety.ResendTaken | homa_incoming.c:1009-1037 | a RESEND beyond the granted offset raises it to the end of the request, at most to the length, and sends what may be sent then; any other sends nothing for the first time |
| GrantSafety.TxScanFacts | homa_outgoing.c:1062-1082 | the scan passes over exactly the packets that were passed on and that the driver no longer holds |
| GrantSafety.WholeGrantSends | homa_incoming.c:951-970 | in every run a GRANT for the whole message makes the sender send everything that has been copied, as far as the pacer lets it, and the whole message once all is copied |
| GrantSafety.AlwaysCompletable | homa_incoming.c:951-1054 | in every run, from the moment the receiver knows of the message, the protocol has a continuation that completes it, whatever has been lost |
| GrantSafety.TxEndFacts | homa_outgoing.c:1062-1082 | tx_end never lies beyond what was passed on, unless the message is only partly copied and all of that part is out, when it is the length |
| GrantSafety.ResendBoundIff | homa_incoming.c:1009-1037 | a RESEND keeps the granted offset within what the receiver allowed or the sender has sent if and only if it is not one for everything sent (length -1) that finds a partly copied message all of whose packets are out while the receiver has not allowed the whole message |
| GrantSafety.PartlyCopiedOvergrants | homa_incoming.c:1020-1034 | an input that shows the exception: after one of three packets was copied and sent, such a RESEND makes the sender take all 3000 bytes to be granted although 1000 were allowed |
| GrantSafety.StepOk | homa_incoming.c:951-1054 | each step of sender, receiver and network, the exception aside, keeps the invariant; the receiver starts with the granted offset that the first packet to arrive carries |
| GrantSafety.GrantSafety | homa_outgoing.c:765-797 | in every run over a network that loses, repeats and reorders, the exception aside: the granted offset is within the length and within what was allowed or sent; every first transmission starts below what the receiver allowed; less than one packet is sent beyond it; without grants only unscheduled bytes are sent |
| GrantSafety.ReceiverAligned | homa_incoming.c:163-284 | in every such run the receiver holds whole segments only, all of them sent, and its granted offset is within the message |
| GrantSafety.ResendRound | homa_incoming.c:110-154 | in every such run, whatever part of the message has been copied and whatever is still in the hands of the driver, the answers to a round of RESENDs are exactly the missing segments that have been passed on, start below tx_end, and lie below recv_end or within what was granted |
| PagePool.FullPageOk | homa_pool.c:195-285 | an available page can be given to a message as a whole: no live chunk is on it, and all page counts stay right |
| PagePool.FullPagesOk | homa_pool.c:311-321 | distinct available pages can be given to a message, and its chunks are disjoint from all live ones |
| PagePool.OwnPageOk | homa_pool.c:377-389 | an available page can become the page of a core that owns none, with a first chunk |
| PagePool.BumpOk | homa_pool.c:343-375 | the next chunk of an owned page shares no byte with any live chunk |
| PagePool.ReuseOk | homa_pool.c:345-353 | starting again at the bottom of an owned page whose count is 1 overlaps nothing |
| PagePool.DisownOk | homa_pool.c:355-367 | giving up a page that still has chunks keeps all counts right and never frees the page |
| PagePool.ReleaseOk | homa_pool.c:464-487 | returning a chunk keeps all counts right |
| PagePool.Pigeonhole | homa_pool.c:218-238 | if there are fewer used pages than the limit, one of the pages below the limit is free |
| BufferPool.Pool.constructor | homa_pool.c:74-137 | all pages are free and nothing is in use |
| BufferPool.Pool.NextAvailable | homa_pool.c:213-262 | as long as claimed pages are still to be found the search ends, with a page that is free or can be stolen |
| BufferPool.Pool.GetPages | homa_pool.c:195-285 | it fails, changing nothing, if and only if fewer than num_pages are free; otherwise it returns exactly num_pages distinct pages that nobody uses and whose owner's lease, if they have one, is over, sets them up, and free_bpages again counts the pages without references |
| BufferPool.Pool.TryOwnPage | homa_pool.c:328-376 | it succeeds if and only if the core owns a page with room at its end or that no message uses; then the chunk comes from that page, is disjoint from all live ones and renews the lease; otherwise the core owns no page afterwards |
| BufferPool.Pool.NewPage | homa_pool.c:377-389 | it succeeds if and only if a page is free; the chunk is the bottom of a page that becomes the core's own |
| BufferPool.Pool.AllocPartial | homa_pool.c:322-395 | it succeeds if and only if the core's own page has room or a page is free, with a chunk disjoint from all live ones; on failure the chunks in use are unchanged |
| BufferPool.Pool.Alloc | homa_pool.c:297-395 | the message gets full pages and at most one partial chunk, none of them in use; on failure everything is given back; it succeeds if enough pages are free and, for a message of less than a page, if and only if the core's own page has room or a page is free |
| BufferPool.Pool.ReleaseBuffers | homa_pool.c:464-487 | exactly the returned chunks stop being in use; an error is reported if and only if some offset is outside the region |
| BufferPool.Pool.Enqueue | homa_pool.c:396-418 | the RPC joins the queue behind all that are no longer, and bpages_needed is what the first one needs |
| BufferPool.Pool.AllocMsg | homa_pool.c:297-419 | either the message has chunks nobody else has, or it is queued in order of length |
| BufferPool.Pool.Withdraw | homa_rpc.c:308-309 | removing an RPC from the queue keeps it sorted; bpages_needed stays right if and only if the RPC was not the first one or the next one needs as many pages, and never becomes too large |
| BufferPool.StaleNeed | homa_pool.c:396-418 | an input, built by calls on a new pool, after which bpages_needed is 1 although the only waiting RPC needs 2 pages |
| BufferPool.Pool.CheckWaiting | homa_pool.c:498-558 | the loop ends; RPCs leave the queue only with space of their own; afterwards the queue is empty or the first RPC needs more pages than are free; no RPC is lost |
| BufferPool.Pool.Retry | homa_pool.c:514-553 | the first RPC either leaves with its space or is queued again; it leaves if enough pages are free |
| BufferPool.BuffersDisjoint | homa_pool.h:21-27 | different chunks in use occupy disjoint byte ranges of the region |
| BufferMap.MapsAgree | homa_receiver.h:45-94 | kernel and application agree about the address of every offset and how many bytes are contiguous there |
| BufferMap.Consecutive | homa_pool.c:434-452 | the bytes called contiguous have consecutive addresses |
| BufferMap.LaidInPool | homa_pool.c:297-419 | the buffers of a message allocated from the pool lie in the region and do not overlap |
| BufferMap.MapInjective | homa_pool.c:434-452 | different bytes of a message have different addresses, all in the region |
| BufferMap.CopyPacket | homa_incoming.c:529-580 | the bytes of the packet up to the first one outside the message or with a bad address are stored at their addresses and nothing else changes; it fails if and only if there is such a byte |
| BufferMap.CopyToPool | homa_incoming.c:490-613 | it fails if and only if a queued packet reaches beyond the message or has a bad address; what is stored is all packets before that one, and its bytes before the fault, whatever the batches |
| BufferMap.AllStored | homa_incoming.c:490-613 | after the packets of a complete message have been copied in any order, memory holds the message and nothing outside its own bytes has changed |
| BufferMap.WrittenOnce | homa_incoming.c:490-613 | each byte of a complete message is written by exactly one packet |
| BufferMap.CopyOut | homa_receiver.cc:53-67 | what is copied is the message from the offset to the end of the chunk in which the range ends; that is just what was asked for if and only if nothing was, the range reaches the end of the message, or it ends at a page boundary |
| BufferMap.CopyOutOverruns | homa_receiver.cc:53-67 | a call that shows the difference: ten bytes of a message of 100 are asked for and all 100 are copied |
| BufferMap.RoundTrip | homa_incoming.c:490-613 | packets of a message arrive in any order, with repetitions and drops, and are copied to the pool in between, any number at a time; no bytes are missing if and only if all were received, and then what copy_out gives from any offset to the end is what was sent; nothing outside the message's chunks has changed |
| SrptTree.PrecedesTotal | homa_qdisc.h:373-390 | of two different RPCs exactly one precedes the other |
| SrptTree.PrecedesByNumbers | homa_qdisc.h:373-390 | an RPC precedes another if and only if it has fewer bytes left, or as many and is older, or is as old and has the lower address |
| SrptTree.InsertRb | homa_qdisc.c:592-614 | the descent links the RPC where the recursive insertion does, and the leftmost flag is right |
| SrptTree.InsertOrdered | homa_qdisc.c:592-614 | insertion keeps the tree ordered and adds just the RPC |
| SrptTree.FirstIsLeast | homa_qdisc.c:704-710 | the leftmost RPC precedes all others |
| SrptTree.LowerFirst | homa_qdisc.c:714-724 | lowering the key of the first RPC in place keeps the tree ordered |
| SrptTree.EraseFirstOrdered | homa_qdisc.c:711-712 | erasing the first RPC keeps the tree ordered and removes just it |
| SrptTree.JoinTracks | homa_qdisc.c:569-576 | for packets deferred in order, tx_left is exactly the number of bytes from the first deferred packet to the end of the message |
| SrptTree.DequeueTracks | homa_qdisc.c:714-724 | sending a packet keeps that, and then tx_left is what follows that packet |
| SrptTree.Qdev.constructor | homa_qdisc.c:217-280 | a device starts without deferred RPCs |
| SrptTree.Qdev.RpcInit | homa_qdisc.h:348-352 | a new RPC has an empty queue and is not in the tree |
| SrptTree.Qdev.DeferHoma | homa_qdisc.c:561-584 | the tree stays ordered and holds exactly the RPCs with packets; the packet is at the end of its RPC's queue; the key changes only if the queue was empty |
| SrptTree.Qdev.GetDeferredHoma | homa_qdisc.c:693-732 | the oldest packet of the RPC that has, of those with packets, the fewest bytes left, and is the oldest among several; none if and only if no packet is deferred; per RPC, what was deferred is what was sent followed by what is queued |
| OutputShare.Pacer | homa_qdisc.c:887-963 | at most five packets are sent, each for the protocol that the credit selects |
| OutputShare.PassServes | homa_qdisc.c:928-956 | a pass serves exactly one protocol, and one that has packets: Homa if TCP has none or the credit is positive, and otherwise TCP; the credit is reset when only one has packets, and changes by what is sent |
| OutputShare.UntilExact | homa_qdisc.c:898-932 | every pass has something to send, and passes end only when there is nothing or there have been enough |
| OutputShare.Alone | homa_qdisc.c:928-956 | while only one protocol has packets, every pass sends one of its packets and the other sends nothing |
| OutputShare.CreditInRange | homa_qdisc.c:933-956 | in every run the credit stays within one packet of the largest length, weighted by the shares |
| OutputShare.CreditAccounts | homa_qdisc.c:940-956 | while both protocols have packets, the credit changes by TCP bytes times share minus Homa bytes times the rest |
| OutputShare.ShareBound | homa_qdisc.c:933-956 | while both protocols have packets, Homa's bytes differ from its share of all bytes sent by at most one packet of the largest length and a hundredth of a byte |
| TcpShare.RotateOk | homa_qdisc.c:641-653 | the credit loop ends, at a qdisc with positive credit, and keeps the invariant |
| TcpShare.CreditsBounded | homa_qdisc.c:535-684 | in every run no qdisc but the current one has positive credit, all credits are above minus the largest packet and at most one increment, and a qdisc is listed exactly if it has packets |
| TcpShare.SendTakesFirst | homa_qdisc.c:640-684 | a call sends the first packet of the qdisc it serves, which had credit; its length comes off that credit, and no other queue changes |
| TcpShare.DeferJoins | homa_qdisc.c:535-553 | a deferred packet joins the end of its queue, and a qdisc that had none joins the end of the list without credit |
| TcpShare.NoPacketLost | homa_qdisc.c:535-684 | in every run the packets that a qdisc had and those deferred for it are, in this order, those it has sent and those it still has |
| TcpShare.SharesDifferBySkips | homa_qdisc.c:641-662 | in every run in which two qdiscs stay on the list, whoever else joins or leaves, their bytes sent plus one increment for each turn they were given without credit differ by less than three increments and two packets: turns passed on without credit are the exact reason for unequal shares |
| TcpShare.FairShare | homa_qdisc.h:40-45 | as long as no qdisc leaves the list, whether or not others join, the bytes sent by any two qdiscs on it differ by less than three increments and two packets |
| TcpShare.PassedOverIff | homa_qdisc.c:655-662 | after a call the turn is with a qdisc that was not served if and only if the one served ran out of packets; that qdisc has no credit, and the next call gives credit to another one first if and only if there is another one |
| TcpShare.Starvation | homa_qdisc.c:655-662 | shares can differ without bound: for every n there is a run in which one qdisc has packets all the time, is given n turns without credit and sends nothing, while another sends n packets |
| TcpShare.StarvationReached | homa_qdisc.c:535-662 | the state in which such runs start is reached from the initial state in four steps |
| TcpShare.TcpQdiscs.constructor | homa_qdisc.c:330-349 | no qdisc has deferred packets |
| TcpShare.TcpQdiscs.DeferTcp | homa_qdisc.c:535-553 | the new state is that of the specification, and the invariant holds |
| TcpShare.TcpQdiscs.XmitDeferredTcp | homa_qdisc.c:624-684 | the new state is that of the specification, the invariant holds, what is returned is the length of the first packet of the qdisc served, and nothing is sent if and only if nothing is deferred |
| TcpShare.TcpQdiscs.FindTurn | homa_qdisc.c:640-653 | the loop that looks for positive credit ends in the state of the specification |
| AckSafety.ServerEndsWhenDone | homa_rpc.c:234-259 | in every run over a network that loses, repeats and reorders, a server RPC that is ended by an ACK, an ack in a DATA packet or an RPC_UNKNOWN has a client that has received the whole response, has given up, or no longer has the RPC |
| AckSafety.ServersExactly | homa_rpc.c:234-259 | after a step a server has exactly the RPCs it had and one that a request has just brought into being, without those that an ACK from their client names in its header or list, that a DATA packet which is not dropped carries an ack for, that their client reports as unknown, or that are ended otherwise |
| AckSafety.ServerCanForget | homa_incoming.c:1150-1238 | a server can always get rid of an RPC whose client has received the whole response or no longer has it, even if the ack was lost: a NEED_ACK is answered by an ACK that ends it |
| AckSafety.NeedAckIff | homa_incoming.c:1150-1197 | a NEED_ACK is answered with an ACK that names the RPC, and with up to five stored acks, if and only if the client has received the whole response or no longer has the RPC, and otherwise with a RESEND |
| AckSafety.UnknownIff | homa_incoming.c:982-1000 | a RESEND is answered with RPC_UNKNOWN if and only if the node does not have the RPC |
| AckSafety.ResponseArrives | homa_incoming.c:839-910 | a response packet for an RPC that the client has brings down the bytes that are missing, never up, and changes no other RPC |
| AckSafety.ClientsExactly | homa_plumbing.c:2626-2639 | a client has an RPC from its creation until its result is returned or it is ended, in every step |
| AckSafety.AckLostIff | homa_peer.c:651-680 | after a result has been returned, a step loses its ack if and only if the ack is neither in store nor in a packet that was sent, and the step frees every packet made with it |
| AckSafety.AckLost | homa_outgoing.c:300-310 | a run that loses an ack: it is put into a packet for another RPC, which is ended before the packet is sent |
| AckSafety.NeedAckAnswered | homa_incoming.c:1150-1197 | whatever happens after a result has been returned, acks lost or not, a NEED_ACK for that RPC is answered with an ACK that names it |
| AckSafety.ReceiveOwes | homa_plumbing.c:2626-2639 | when a result has been returned its ack is in store or in a packet that was sent |
| AckSafety.StepForward | homa_rpc.c:30-60 | an RPC that is done stays done in every step, since ids are never used again |
| AckSafety.NeedAckOk | homa_incoming.c:1150-1197 | a NEED_ACK is answered with acks only for RPCs that are done |
| AckSafety.ReceiveOk | homa_plumbing.c:2626-2639 | when a result is returned, the ack that is stored or sent is for an RPC that is done, as are all others in the store |
| AckSafety.ResendOk | homa_incoming.c:982-1000 | an RPC_UNKNOWN sent to a server names an RPC that its client no longer has |
| AckSafety.BuildOk | homa_outgoing.c:300-310 | an ack put into a DATA packet when the packet is made is for an RPC that is done |
| AckSafety.StepOk | homa_incoming.c:1063-1238 | every ack on its way or in store names an RPC that is done, and each step keeps that |
| AckSafety.PeerAcks.constructor | homa_peer.h:158-168 | no acks are stored |
| AckSafety.PeerAcks.Add | homa_peer.c:657-680 | the id is stored, or the store was full and is emptied into an ACK packet together with the id; there are never more than five |
| AckSafety.PeerAcks.Get | homa_peer.c:691-707 | the youngest acks, at most as many as asked for, are removed and returned |
| AckSafety.GetAcks | homa_peer.c:691-707 | what is taken and what stays make up the store, and as many are taken as asked for, or all |
| Handoff.NoHandoffLost | homa_incoming.c:1350-1524 | in every run, with interrupted waits, aborts and ends, no thread waits while an RPC is ready; a live shared RPC with packets to deal with has RPC_PKTS_READY set; one with the flag or an error is on ready_rpcs, assigned to an interest, or in the hands of a thread, and so is one, client or server, with a complete message unless the message has been returned |
| Handoff.ReturnedExactly | homa_incoming.c:1438-1470 | what a step returns to the application, for every step: the error that a thread finds, a fault of copying, the message if it is complete and all copied, and otherwise nothing |
| Handoff.AlwaysDeliverable | homa_incoming.c:1350-1524 | in every run a complete message without error that has not been returned, request or response, has a continuation without faults that returns it |
| Handoff.SettleReturns | homa_incoming.c:1449-1470 | a thread that has dealt with all of a complete message returns it and is done; a client's RPC ends with that and a server's stays |
| Handoff.FirstComeFirstServed | homa_incoming.c:1476-1524 | in every step RPCs join ready_rpcs at the end, keep their order, and are taken from the front |
| Handoff.PacketCounted | homa_incoming.c:904-910 | a packet with missing bytes is queued and the RPC flagged, and no other RPC changes |
| Handoff.StepOk | homa_incoming.c:1368-1524 | each step keeps the invariant behind that |
| Handoff.HandOffOk | homa_incoming.c:1476-1524 | handing off places the RPC and takes no other from where it was |
| Handoff.SettleOk | homa_incoming.c:1432-1448 | a thread that has copied what there was, or found an incomplete message for an actor, may clear the flag and leave the RPC or return it; a complete message that it leaves has been returned |
| Handoff.ResumeOk | homa_incoming.c:1432-1470 | a thread that has dropped the RPC lock to copy keeps the invariant when it takes the lock again, whether the RPC has died, the copy has failed, or there is more to copy |
| Handoff.UnlinkOk | homa_incoming.c:1407-1424 | an interrupted wait without a handoff leaves nothing behind |
| Handoff.PacketOk | homa_incoming.c:904-910 | a packet that makes an RPC need attention sets the flag and hands the RPC off |
| Handoff.ChooseInterest | homa_interest.c:152-174 | the first interest whose core is not busy, or the first if all are |
| Handoff.AbortMisreportedIff | homa_rpc.c:344-362 | after an abort of a client RPC there is a continuation in which a thread returns the RPC with something else than the error of the abort if and only if a thread has dropped the RPC lock to copy its packets at that time; then there even is one without faults that returns the message; otherwise whatever is returned for that RPC is the error |
| Handoff.CopyingReached | homa_incoming.c:1432-1438 | such a state is reached in five steps, with any part of the message received, the whole message included |

## Left out

- homa_plumbing.c, sockets, ports, routing and peer eviction, apart from the end of homa_recvmsg: they add easy members.
- homa_grant_priority and the priority of a GRANT packet: a table lookup.
- GrantFlow.CheckRpc and the other members of GrantFlow work on scheduler values and not on the in-place scheduler of GrantManager; they are runs of the steps that GrantManager.Grant.Perform makes in place, but the candidate ring is not tied to that object.
- GrantFlow.Others: between its locked sections other threads end RPCs; their own grants at the same time are not interleaved with it.
- CandidateRing.Candidates.Add: the counters are unbounded, so wrap-around of the 32-bit counters is not modelled.
- GrantRuns.IncomingBudget: locks are atomic steps, so the races that homa_grant.c documents as harmless are not modelled.
- TcpShare: the current qdisc is a position in the list rather than a pointer to an element.
- SrptTree.InsertRb: red-black rebalancing is not modelled, only the ordered tree it rebalances.
- BufferPool.Pool.GetPages: page locks are always available, since the call is one atomic step.
- BufferPool.Pool.AllocMsg: a socket without a buffer region is not modelled.
- GrantSafety.GrantSafety: the throttle queue and the NIC queue are a number of packets let through; RPC death during transmission is not modelled.
- AckSafety.ServerEndsWhenDone: ids come from a counter that is never reset, as in one life of a node; server ports are not modelled.
- Handoff.NoHandoffLost: private RPCs and socket shutdown are not modelled.
- BufferMap.CopyToPool: an RPC that dies while its packets are copied is in Handoff and not here.
- homa_message_out_fill's computation of max_seg_data and max_gso_data from the MTU and the device: any positive sizes are allowed.
- GRO, GSO, TCP hijacking, the pacer of homa_pacer.c, timers, sysctl, metrics, time traces, and shutdown.
