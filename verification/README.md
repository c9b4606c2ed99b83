# A verified model of the UDP file-transfer protocol

The programs move a file from a client to a server over an unreliable network. A client
cuts the file into blocks of 1000 bytes and hands them, one at a time, to a sender daemon.
The daemon keeps them in a ring buffer, sends each as a numbered packet, and starts a
timer for it in a separate timer process; when the timer fires it sends the packet again.
A server daemon acknowledges what its own buffer accepts and hands packets in order to
the server, which rebuilds the file.

The model follows those parts, one Dafny module each:

- `DeltaList`, `LinkedLists`, `Timers`: the timer's delta list as a value, the doubly
  linked list on the heap that implements it, and the timer's main loop.
- `TimerHistory`, `NaiveClock`: runs of the timer with their history, and the clock that
  decrements every timer, which the delta list is compared with.
- `CircularBuffers`, `RingRuns`: the ring buffer as a value and as a mutable object, and
  every sequence of operations on it.
- `Jacobson`: the round-trip estimator, compared with section 2 of RFC 6298.
- `FileTransfer`, `ServerDaemons`: splitting, reassembly, and the server daemon's counting.
- `SenderDaemons`, `SenderSteps`: the sender daemon's select loop, handler by handler and
  as one step.
- `Protocol`, `SenderRuns`, `SenderTheorems`, `Progress`, `Liveness`, `AckTheorems`,
  `EstimateRuns`, `Scenarios`: client, sender daemon, timer and server daemon as one system of queues, with
  a network that may lose, repeat and reorder, the theorems about every run of it, whatever
  the order of the steps, and three concrete runs.

Stateful code is a class or a method over arrays whose contract equates the new state with
a function of the old one; the lemmas then speak about those functions. A step of the
system is exactly one call of such a function.

Main results:

- No unacknowledged packet is forgotten: each has exactly one token among start message,
  live timer and expiry, in every run (`TokenConservation`). In every interleaving its
  expiry is sent within as many turns of the timer as messages wait and nineteen more
  (`UnackedExpires`), and it is transmitted again once the daemon has read the expiries
  waiting by then (`UnackedIsRetransmitted`). The one assumption is that the timer takes a
  message in a turn in which one waits.
- Whatever the start times and cancels, no timer is held past its deadline exactly as long
  as no message stalls the delta list (`NeverLateIff`), and until then every timer fires or
  is cancelled in time (`DeadlinesMet`). With the one start time the daemon uses the list
  never stalls (`UniformRun`, `UniformFate`); with mixed start times it can stall for good
  (`StrandedTimer`, `StalledForever`).
- Without cancels the delta list is the naive clock (`DeltaListIsAClock`).
- Every new packet carries its own block, and the new packets together are the file
  (`FirstTransmission`, `NewPacketsAreTheFile`). A retransmission carries the newest block
  instead of its own; `PacketRightIff` says exactly when that is right, and
  `RetransmissionIsStale` shows a run in which it is not.
- A packet loses its token in exactly one kind of step, the timer taking a cancel for it
  while it is live (`TokenLostIff`), and is then never transmitted again (`GoneForever`).
  Whether an acknowledgement comes to that is settled by the timer's list and the messages
  waiting for it (`TokenFate`, `FirstAckInTimeIff`). If it is in time the packet is
  silenced for good (`AckSilencesTimer`); if the expiry is already under way, or the timer
  expires first, the packet is transmitted again although acknowledged (`AckTooLate`,
  `LateAckResends`).
- Nothing that is ready is left unread (`ReplyIsHeard`, `PassReadsAll`, `TimerReads`), and
  every file that is not empty has a run that completes (`CanComplete`).
- When the daemon declares the transfer complete, the blocks without acknowledgement are
  exactly as many as `CompletionSlack` says, and it is right exactly under the condition of
  `CompletionIsRightIff`.
- In every run SRTT is the standard's on the samples other than the sentinel, and RTTVAR is
  below the standard's by a fading share of the first sample and less than a millisecond
  (`TimeoutFollowsStandard`). The timeout this gives never reaches the timer, whose start
  messages always carry twenty ticks (`TokenConservation`).

Where code and documentation differ the model follows the code: the documentation speaks of
a 64 KB buffer and a window of 20 packets, the code has 20000 slots of 1000 bytes; the
documentation has a packet removed from the buffer when it is acknowledged, the code
releases whatever run of zero slots follows its ack pointer; the documentation has a lost
packet itself sent again, the code repeats the body it sent last.

## Model

| member | source | states |
|---|---|---|
| DeltaList.InsertAlarms | linkedlist.h:64-132 | Read as absolute due times, insertion puts the new timer, due at its own start time, behind all earlier ones and in front of equal or later ones, and moves no other due time |
| DeltaList.CancelAlarms | linkedlist.h:222-263 | Cancelling removes only the first timer with the number, keeps order and all earlier due times, brings every later one forward by exactly the removed delta, and does nothing when the number is absent |
| DeltaList.CancelKeepsDueTimesIff | linkedlist.h:222-263 | The remaining due times are unaffected by a cancel if and only if the removed entry was the last or had delta zero |
| DeltaList.TickAlarms | linkedlist.h:192-220 | One tick brings every due time forward by one and fires exactly the leading timers then due, in list order |
| DeltaList.AlarmsInjective | linkedlist.h:16-32 | The delta encoding loses nothing: lists with the same due times are the same list |
| LinkedLists.LinkedList.AddNode | linkedlist.h:64-132 | On the heap list: stays acyclic and doubly linked with the right length, contents become the insertion, the node is linked at the search position |
| LinkedLists.LinkedList.DeleteNode | linkedlist.h:149-167 | On the heap list: the head is unlinked, and only it |
| LinkedLists.LinkedList.CheckAndUpdateHead | linkedlist.h:192-220 | On the heap list: contents become the tick of the old contents and the datagrams sent are the fired entries |
| LinkedLists.LinkedList.DeleteNodeOfSeqNo | linkedlist.h:222-263 | On the heap list: contents become the cancellation, the one node found is unlinked, at the head, inside or at the end |
| Timers.Iterate | Timer.c:51-111 | One pass of the timer's loop: at most one message is applied, then one tick |
| Timers.Serve | Timer.c:51-111 | The loop sends in every iteration what the list of that moment prescribes |
| Timers.RunOrdered | linkedlist.h:64-263 | In every run no delta behind the head is negative |
| Timers.HeadedUnlessStalled | linkedlist.h:192-263 | A head still to come stays so over an iteration if and only if no start time below one arrives and no head with a zero delta behind it is cancelled |
| Timers.NeverLateIff | linkedlist.h:64-263 | In every run, whatever the start times and cancels, no timer is ever held past its deadline if and only if no message stalls the list |
| Timers.StalledFiresIff | linkedlist.h:192-263 | With a head past zero a timer fires if and only if that head is cancelled and the timer behind it has a delta of one, and the list stays so if and only if the head is not cancelled or the timer behind it has a delta of zero, whatever start times arrive |
| Timers.StalledForever | linkedlist.h:192-220 | From a head past zero on no timer ever fires, as long as no message cancels what is then the head |
| Timers.SameHeadForever | linkedlist.h:192-220 | With start times of one or more a head past zero stays the head and moves one further from zero per tick, until its number is cancelled |
| Timers.StrandedTimer | linkedlist.h:222-263 | A run of three messages after which a timer started with five ticks never fires |
| Timers.UniformRun | Timer.c:51-111 | With one common start time and any cancels, all deltas are positive and add up to less than it, so the head never stalls, fewer timers than that are live, and at most one fires per iteration |
| TimerHistory.ExpiryAccounting | linkedlist.h:83-263 | In every run a live timer is due at its start time minus the ticks since minus the deltas cancelled ahead of it, and a fired one fired at exactly the tick this gives; firings ahead contribute nothing |
| TimerHistory.NothingLost | Timer.c:74-106 | In every run the started timers are exactly the live, the fired and the cancelled ones, each counted once |
| TimerHistory.RecordTruthful | Timer.c:74-106 | Every live, fired or cancelled timer carries the number and start time of the message that started it |
| TimerHistory.DeadlinesMet | linkedlist.h:64-263 | In every run, whatever the start times and cancels, as long as no message has stalled the list every timer is fired or cancelled by its own start time after its start, and none fires later |
| TimerHistory.UniformFate | cl_deamon.c:132-135 | With one common start time t the list never stalls, so every timer is fired or cancelled within t ticks; and timers fire in the order they were started |
| TimerHistory.FiresOnTime | linkedlist.h:192-220 | Without cancels a timer started with t fires in exactly the t-th tick |
| NaiveClock.DeltaListIsAClock | linkedlist.h:64-220 | Without cancels the timer sends in every iteration exactly what a clock that decrements every timer rings, newest first among equals, and its list is that clock's pile sorted by due time |
| CircularBuffers.CircularBuffer.constructor | circular_buffer.h:49-62 | A new buffer is empty with every slot zero |
| CircularBuffers.CircularBuffer.CbPushData | circular_buffer.h:104-121 | Stores a block one packet beyond the old head or refuses, with the space left as the reply |
| CircularBuffers.CircularBuffer.CbPopData | circular_buffer.h:141-171 | Returns the bytes read from the tail modulo the capacity, or refuses |
| CircularBuffers.TwoPartCopy | circular_buffer.h:151-163 | The copy in one or two pieces equals reading byte by byte modulo the capacity |
| CircularBuffers.CircularBuffer.UpdateHoleTable | circular_buffer.h:173-185 | The release loop terminates and releases the whole run of zero slots |
| CircularBuffers.ReleaseIsMaximal | circular_buffer.h:173-185 | What is released is exactly the maximal run of zero slots from the ack pointer on, at most one round, and that many blocks move from notack to available |
| CircularBuffers.CircularBuffer.AckData | circular_buffer.h:187-204 | An acknowledgement releases that run, whatever index it names |
| CircularBuffers.CircularBuffer.GetDataIndex | circular_buffer.h:71-85 | Only a slot marked 1 is served, and serving it adds to notack |
| RingRuns.CountersConserved | circular_buffer.h:104-204 | In every sequence of packet-sized operations the three counters add up to the capacity, and the pointers are apart by what the counters say, modulo the capacity |
| RingRuns.PopReturns | circular_buffer.h:113-163 | In every reachable state, which push a pop returns; it is the push before the expected one if and only if the ring is not full |
| RingRuns.DelayedByOne | circular_buffer.h:113-163 | While the ring is never full, the output is the input delayed by one block |
| RingRuns.FirstAckOvershoots | circular_buffer.h:173-204 | The first acknowledgement after one push and pop releases all slots and makes notack negative |
| RingRuns.NotackNonNegativeIff | circular_buffer.h:173-204 | An acknowledgement leaves notack non-negative if and only if the zero slots from the ack pointer on, short of the marked one, are no more than the packets that wait for acknowledgement |
| RingRuns.SlotsMarked | circular_buffer.h:104-171 | In every run an accepted push marks exactly the slot of its number with 1, except the last slot of the table, which no push marks, and a pop clears the slot of its number |
| RingRuns.LastSlotUnguarded | circular_buffer.h:117 | A run in which an acknowledgement releases the last slot with the block still waiting in it, so that more is released than was sent |
| Jacobson.SampleAccuracy | Jacobson.c:12-19 | The sample is the true difference of the two times to less than a millisecond, and is negative, as the sentinel is, only if the acknowledgement's time is the earlier one |
| Jacobson.Estimator.InitializeSrttRttvar | Jacobson.c:21-27 | The estimates become the sample and half of it |
| Jacobson.Estimator.ComputeRto | Jacobson.c:29-46 | The estimates are updated, except on the sentinel sample, and the timeout truncated |
| Jacobson.GapFades | Jacobson.c:34-41 | For every sequence of samples, whatever their sign, SRTT is that of RFC 6298 on the samples other than the sentinel, and RTTVAR is low by the initial gap, shrunk by 3/4 per such sample, plus a term in [0,1) that does not accumulate |
| Jacobson.TruncationGap | Jacobson.c:38-41 | From equal estimates RTTVAR is low by less than one and the unrounded timeout by less than four |
| Jacobson.FirstSampleCountsTwice | cl_deamon.c:223-228 | Initialising and then updating with the first sample r0 leaves RTTVAR, n genuine samples later, low by (3/4)^n of r0/8 plus a term in [0,1), and the timeout by four times that |
| EstimateRuns.EstimateInRuns | cl_deamon.c:219-228 | In every run the estimates are those of the acknowledgements received, in order, and the timeout that of the latest |
| Jacobson.TruncIs | Jacobson.c:42-45 | The conversion to an integer is toward zero and loses less than one |
| EstimateRuns.TimeoutInRuns | cl_deamon.c:219-228 | In every run the timeout is the unrounded one of the current estimates rounded down if that is at least 5, and 5 otherwise, or 250 after the sentinel |
| EstimateRuns.TimeoutFollowsStandard | cl_deamon.c:219-228 | In every run, from the latest acknowledgement of packet 0 on, SRTT is that of RFC 6298 and RTTVAR low by exactly the gap of FirstSampleCountsTwice |
| EstimateRuns.TimeoutBounded | cl_deamon.c:219-228 | In every run samples within bounds keep both estimates within bounds and the timeout between 5 and the bound of EstimatesBounded |
| Jacobson.EstimatesBounded | Jacobson.c:21-46 | Samples within bounds keep both estimates and the unrounded timeout within bounds |
| Jacobson.ConstantSample | Jacobson.c:38-41 | Under a constant sample other than the sentinel the SRTT error shrinks by exactly 7/8 per update and RTTVAR stays below the closed form of its recurrence |
| FileTransfer.SendD | genlib.h:204-228 | The block is transmitted again until the first reply that is not negative, and no further |
| FileTransfer.SplitFile | ft_client.c:102-137 | The client sends one block per full packet and one more, whose unused end still holds the block before |
| FileTransfer.TailIsStale | ft_client.c:102-137 | The unused end of the last block holds what the block before had there, or the initial buffer |
| FileTransfer.Reassemble | ftps.c:64-134 | The server writes the first bytes of the stream, as many as the file has, and acknowledges the bytes of each block |
| FileTransfer.SplitThenJoin | ft_client.c:102-137 | Splitting then joining is the identity for every file |
| FileTransfer.AckTotalIs | ftps.c:87-120 | The bytes acknowledged after j blocks are the smaller of j packets and the file size |
| ServerDaemons.ServerDaemon.Iterate | tcpds.c:141-185 | One pass of the server daemon: acknowledge if accepted, hand over, count, test for completion |
| ServerDaemons.Accounting | tcpds.c:167-185 | In every run sent plus remaining bytes are the file size, and the daemon is done exactly when the acknowledged bytes total the file size, never earlier |
| ServerDaemons.DoneIff | tcpds.c:167-185 | In every run the server daemon hands a packet over whenever its buffer has the next one, whatever space is left, and is done from exactly the iteration on in which these are as many as the packets that hold the file |
| ServerDaemons.AcksAreAccepted | tcpds.c:141-165 | Until it is done the daemon acknowledges exactly the accepted packets, under their own numbers, in order |
| SenderDaemons.SenderDaemon.FromClient | cl_deamon.c:191-207 | A block from the client is pushed, counted if accepted, and answered with the space left |
| SenderDaemons.SenderDaemon.FromServer | cl_deamon.c:212-237 | An acknowledgement releases slots, updates the estimates, keeps the timeout at five or more, cancels the timer, and counts one packet |
| SenderDaemons.SenderDaemon.FromTimer | cl_deamon.c:240-262 | An expiry sends a packet under its number and starts its timer again |
| SenderDaemons.SenderDaemon.PopAndSend | cl_deamon.c:264-283 | A waiting block is sent under the next number, with the bytes received last, and its timer started |
| SenderDaemons.SenderDaemon.Loop | cl_deamon.c:165-294 | One pass of the select loop is the four handlers in order and the completion test |
| SenderSteps.IterationIs | cl_deamon.c:165-294 | A block offered by the client is sent in the same pass under the next number with its own bytes, or leaves no trace but a negative reply; the daemon is idle again afterwards |
| SenderSteps.CountersKeptUnlessReloaded | cl_deamon.c:245-283 | A pass keeps the sum of the ring's counters exactly when it reloads no packet, and a reload needs a new block in the expired packet's slot |
| SenderSteps.ReloadsIff | circular_buffer.h:71-85 | A pass reloads the expired packet if and only if it takes a block into that packet's slot, this is not the last slot, and no acknowledgement of the pass marks it as the one before the ack pointer |
| SenderSteps.AckStopsAt | circular_buffer.h:173-204 | An acknowledgement releases no slot from a slot in use on, going round from the ack pointer |
| SenderSteps.SpaceOfIteration | cl_deamon.c:191-283 | A pass uses up one packet of space for a block it takes; an acknowledgement gives back at most one round, and with a block taken in the same pass at most the slots in front of that block's, unless that is the last one |
| Protocol.DaemonTokens | cl_deamon.c:212-283 | A pass of the daemon adds a token for a new packet and otherwise only moves tokens |
| Protocol.TimerTokens | Timer.c:74-106 | A pass of the timer only moves tokens, except that a cancel may take away the one it names |
| SenderTheorems.TokenConservation | cl_deamon.c:212-283 | In every run an unacknowledged packet has exactly one token, an acknowledged one at most one, other numbers none; the timer's list stays paced and every start message carries twenty ticks whatever timeout is computed |
| SenderTheorems.CancelCarriesTimeout | cl_deamon.c:231-278 | In every run the cancel for an acknowledgement carries the timeout of the latest transmission, the only message the adaptive timeout goes into |
| Liveness.TokenExpires | Timer.c:51-111 | In every run, whatever the order of the steps, a number that keeps its token has its expiry sent once the timer has had as many turns as messages wait and nineteen more |
| Liveness.UnackedExpires | Timer.c:51-111 | So has every packet that stays unacknowledged that long |
| Liveness.ExpiryIsSent | cl_deamon.c:240-262 | In every run an expiry under way leads to a transmission by the time the daemon has read as many expiries as wait |
| Liveness.UnackedIsRetransmitted | cl_deamon.c:240-262 | In every run, whatever the order of the steps, a packet that stays unacknowledged until then is transmitted again |
| SenderTheorems.FirstTransmission | cl_deamon.c:264-283 | In every run the first packet with a number carries exactly the file's block of that number, and the numbers sent before it are exactly the smaller ones |
| SenderTheorems.NewPacketsAreTheFile | cl_deamon.c:191-283 | In every run the new packets are a prefix of the file's blocks, refused pushes included, and once complete they join up to the file |
| Progress.ReplyIsHeard | genlib.h:204-228 | In every run a waiting reply is read, and then the same block is offered again after a refusal, the next one after an acceptance |
| Progress.PassReadsAll | cl_deamon.c:165-283 | In every run a daemon that is not done reads any combination of a waiting block, an acknowledgement and an expiry in one pass: the block is answered, the acknowledgement counted and announced, the expired packet sent again |
| Progress.TimerReads | Timer.c:51-111 | In every run the timer takes a waiting message and ticks |
| Progress.CanComplete | cl_deamon.c:165-294 | Every file that is not empty has a run that ends done with all packets that hold its bytes acknowledged, which are all blocks if and only if the size is not a multiple of the packet size |
| SenderTheorems.PacketRightIff | cl_deamon.c:245-252 | In every run every packet, reloaded or not, carries the newest block sent so far; it is right if and only if its number is the newest or the two blocks are equal |
| Scenarios.RetransmissionIsStale | cl_deamon.c:245-259 | A run in which packet 0, retransmitted after packet 1, carries block 1 under number 0 |
| SenderTheorems.RingCountersConserved | circular_buffer.h:71-85 | In every run, between passes, the ring is empty, no slot is 1, and its counters add up to the capacity and one packet per reload so far, of which there is none before the ring has gone round |
| SenderTheorems.WindowBounded | circular_buffer.h:104-204 | In every run the free space is never negative and at most the capacity for each acknowledgement and once more, less a packet for every one sent; so at most 20000 packets go out before the first acknowledgement, and at most 20000 more for each one received |
| SenderTheorems.AcceptedIff | tcpds.c:141-165 | In every run the accepted numbers are exactly those of packets the server daemon heard and its buffer did not refuse |
| SenderTheorems.CompletionCount | cl_deamon.c:236-290 | In every run all acknowledgements received are for accepted packets, and the daemon of a file that is not empty is done if and only if they are as many as packets it takes to hold the file |
| SenderTheorems.CompletionSlack | cl_deamon.c:285-290 | At completion the blocks without acknowledgement are exactly as many as acknowledgements were repeats, and one more if the file is a multiple of the packet size |
| SenderTheorems.CompletionIsRightIff | cl_deamon.c:285-290 | Completion means all blocks acknowledged and accepted if and only if the file is not a multiple of the packet size and no acknowledgement was received twice |
| Scenarios.RepeatedAckCompletesEarly | cl_deamon.c:236-290 | A run in which a repeated acknowledgement completes the transfer of a two-block file with the second block never sent |
| AckTheorems.TokenLostIff | linkedlist.h:222-263 | In every run a number loses its token in a step if and only if the timer then takes a cancel for it while its timer is live |
| AckTheorems.GoneForever | cl_deamon.c:240-262 | In every run a sent number that has lost its token never has one again and is never transmitted again |
| AckTheorems.TokenFate | Timer.c:74-106 | In every run, while no acknowledgement of it arrives, a number's token is gone once the waiting messages have been taken if and only if it was gone before or those messages take it from the list as it stood |
| AckTheorems.FirstAckInTimeIff | cl_deamon.c:231-234 | In every run the first acknowledgement of a packet takes its token if and only if the packet would be live after the timer had taken the messages waiting at that moment; never if its expiry is under way |
| AckTheorems.AckSilencesTimer | cl_deamon.c:231-234 | In every run after an acknowledgement that is in time the packet is never transmitted again |
| AckTheorems.AckTooLate | cl_deamon.c:231-259 | In every run after an acknowledgement that is too late, until another one, the packet keeps its token, expires again and is transmitted again |
| Scenarios.LateAckResends | cl_deamon.c:231-259 | A run in which a packet is acknowledged while its expiry waits, and is sent again with its timer restarted behind the cancel |

## Left out

- Sockets, select, addresses, printing, sleeping and freeing memory: messages are queue entries, files are byte sequences, and which sockets are ready is an input.
- Connection set-up, several transfers in a row, and the final block left over when the size is a multiple of 1000: one transfer is modelled from the state after set-up.
- CB_server.h and crc.c are not part of this model: the server daemon's buffer appears as the answers it gives, and the checksum test is disabled in the code.
- Failing sends and receives on the local links: they are reliable first-in first-out queues.
- LinkedLists.LinkedList.AddNode: times are unbounded integers; a 32-bit time could only overflow on a head that has stalled, which the daemon's start time rules out (Timers.UniformRun).
- LinkedLists.LinkedList.CheckAndUpdateHead: the integer the C function returns, which is undefined on its main path and never read, is not modelled.
- CircularBuffers.CircularBuffer.CbPushData: only whole packets are pushed, as by every caller; a table index of -1, which every push into the last slot computes, writes outside the table and is modelled as no write to it.
- CircularBuffers.CircularBuffer.CbPopData: at most the capacity is popped, beyond which the code would read outside its buffer; a table index of -1 is modelled as no write to the table.
- CircularBuffers.CircularBuffer.constructor: the whole slot table starts at zero, as intended; the code clears only the first quarter of its bytes.
- CircularBuffers.CircularBuffer.AckData: selective acknowledgement is not claimed, since the index is only printed, nor is a non-negative notack (RingRuns.NotackNonNegativeIff says when it is).
- Jacobson.Estimator.ComputeRto: floats are reals, so rounding is not modelled.
- Jacobson.EstimatesBounded: the bounds are for non-negative samples; the comparison with RFC 6298 is for all.
- FileTransfer.SendD: the replies are given as a finite list that holds an accepting one; without one the C loop does not end.
- SenderDaemons.SenderDaemon.FromServer: the clock and the time stamp in the acknowledgement are inputs; the server daemon never fills the stamp in, so it may be any time.
- add_in_between, update_head, put_data_index, SEND2D and the older programs ftpc.c, tcpdc.c and genlib.c: not used by the programs modelled.
