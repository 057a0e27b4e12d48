# Total order multicast, verified in Dafny

This project models an implementation of the ISIS total order multicast protocol and
proves what it is for: all processes deliver the same messages in the same order. Check
it with `dafny verify dfyconfig.toml`.

## What is modelled

Each process has a Lamport-style counter and a hold-back queue. A sender thread sends a
Data message to every process in turn, retransmitting until that process acknowledges it
with a proposed number; the largest proposal becomes the final number, which the thread
then sends to every process in a Seq message. A process delivers sequenced messages from
the head of its queue, ordered by number, unsequenced messages first among equals.

The model has four layers.

- `Wire.dfy`: the four datagrams, byte for byte.
- `Ordering.dfy`, `HoldBackQueue.dfy`, `QueueHistory.dfy`: the comparator, the ordered set
  as a sequence kept sorted by it, and the queue, as a value with a specification (a filter
  over the held messages) and as the class that scans and erases in place.
- `Process.dfy`, `Sender.dfy`: the handlers as a class that takes raw datagrams, and the
  sender thread as methods over the events its sockets see.
- `System.dfy` onwards: any number of processes and sender threads as a transition system.
  One datagram handled is one step, because a single listening loop runs both handlers.

The queue class is proved against its specification, the process class against its reaction
to raw datagrams, and the sender methods against what their event streams contain. The
system is tied to both: a Data or Seq step is the process's reaction to the encoded datagram
(`Theorems.DataStepIsReaction`, `Theorems.SeqStepIsReaction`). A sender thread that reads its
answers one by one, while everybody else goes on in between, is a run of the system
(`SenderSteps.ThreadIsRun`), and every sender in the system has got where it is as such a
thread (`SenderSteps.RunIsThread`).

Two networks are used, and every theorem says which.

- ANY (`System.dfy`): datagrams sent form a growing set; each may be received any number of
  times, in any order, or never.
- FIFO (`Fifo.dfy`): Data and Seq copies travel on one ordered link per pair of processes,
  with loss and duplication but no overtaking (`Links.LinkExactly`); acknowledgements travel
  as under ANY. Every FIFO run is an ANY run (`FifoNetwork.FifoRefinesAny`).

Standing hypotheses: processes are honest and do not crash, all have the same host list of
fewer than 2^32 distinct addresses, and no two launched messages have the same sender and
message id.

The 32-bit counter wraps in the model as it does in the source, and the invariant has two
parts. What `Safety.Safe` says survives every step: nothing accepted is lost, and every
delivery carries the final number of its message. What `Invariant.Good` adds is about order,
and its guard is exact: a step keeps it if and only if it does not accept a message afresh
at a process whose counter is 2^32 - 1 (`Invariant.StepKeeps`), and so for whole runs
(`Invariant.ReachableGood`). A theorem that asks for `Reaches` or `FReaches` holds after
every run without such a step; one that asks for `Executes` or `FExecutes` holds after every
run. Fewer than 2^32 proposals in all cannot wrap a counter
(`Invariant.FewProposalsNeverWrap`), nor, over FIFO, can fewer than 2^32 pairs of a process
and a launched message (`FifoNetwork.FewMessagesNeverWrap`).
`WrapAround.WrapBreaksAgreement` is a run of two processes with a wrapping step in which
they deliver two messages in opposite orders.

Where the source and its documentation part: the design notes say that keeping pending
acknowledgements stops replayed messages from getting new numbers. The queue forgets a
message once it is sequenced (src/process.cc:300), so a Data copy that arrives after the
Seq is accepted afresh. Over plain UDP a message can then be delivered twice, or stay in
the queue for ever (`Counterexamples.ArbitraryNetworkRepeats`,
`Counterexamples.ArbitraryNetworkLeavesQueue`), where it also holds back every message whose
final number is not below its new one (`Theorems.DeliveredIff`). The order of first
deliveries survives even that. Exactly when a queue ends empty and a log is free of repeats
is proved for every run (`Schedule.QueueEmptyIff`, `Schedule.ExactlyOnceIff`). Over FIFO each
message is delivered once, and a queue is empty once its process has been told everything.

The fairness that `Fairness.FairCompleteness` supposes, once no more messages are launched:
on a link that some thread wants to send on, one of the threads that do keeps sending, as
the holder of the client's lock does (src/udp_conn.cc:82-87); a copy sent again and again is
received again and again; and a copy received, and so answered, again and again has its
answer read by a sender that keeps waiting for it.

`HandleDataMsg` fills in a new acknowledgement through an empty optional
(src/process.cc:384-391). The model takes the evident intention: a new acknowledgement is
made, inserted and sent.

## Main results

| result | network | member |
|---|---|---|
| delivery orders agree, stamps included | ANY | `Theorems.PrefixAgreement`, `Theorems.StampAgreement` |
| nothing undelivered can get an earlier place | ANY | `Theorems.DownwardClosure` |
| a message launched later is numbered later | ANY | `Theorems.RealTimeOrder` |
| the order invariant survives a step, exactly when | ANY | `Invariant.StepKeeps` |
| a told message is delivered, exactly when | ANY | `Theorems.DeliveredIff` |
| a queue ends empty, exactly when | ANY | `Schedule.QueueEmptyIff` |
| a log has no repeats, exactly when | ANY | `Schedule.ExactlyOnceIff` |
| everything delivered was launched and sent in the run | ANY | `Integrity.DeliveredWasSent`, `Integrity.NetworkExactly` |
| senders of the system are sender threads | ANY | `SenderSteps.ThreadIsRun`, `SenderSteps.RunIsThread` |
| a link does exactly what an ordered link may do | FIFO | `Links.LinksKeepOrder`, `Links.LinkExactly` |
| whole logs agree, each message once | FIFO | `FifoTheorems.FullPrefixAgreement`, `FifoTheorems.ExactlyOnce` |
| all told: queue empty, log complete and sorted | FIFO | `FifoTheorems.Quiescence` |
| every fair run delivers everything everywhere | FIFO | `Fairness.FairCompleteness` |
| from every state such a run exists | FIFO | `Completion.EventualCompleteness`, `Fairness.FairRunExists` |
| any messages can be sent and delivered | FIFO | `Completion.AnyMessagesDelivered` |
| agreement can fail once a counter wraps | ANY | `WrapAround.WrapBreaksAgreement` |
| queue delivers in order for any careful caller | none | `QueueHistory.RelyGuarantee` |
| queue loses and invents nothing for any caller | none | `QueueHistory.NothingLost`, `QueueHistory.NothingInvented` |
| each process is such a caller | ANY | `Callers.SystemPlays`, `Callers.SystemIsCareful` |
| the datagrams byte for byte | none | `Wire.EncodeNumeral` |

## Model

| member | source | states |
|---|---|---|
| `Wire.RoundTrip` | src/process.cc:24-153 | decoding an encoded datagram of any of the four kinds gives its type word and its fields back |
| `Wire.Separation` | src/process.cc:36-206 | a buffer passes decoding and validation as some datagram if and only if it is that datagram's encoding and meets the receiver's expectations, so no kind passes for another |
| `Wire.EncodeInjective` | src/process.cc:101-153 | distinct datagrams have distinct encodings |
| `Wire.EncodeNumeral` | src/process.cc:101-153 | each kind of datagram byte for byte: its length, and its bytes read as one numeral, most significant first, are type number 1, 2, 3 or 4, sender, message id and the further fields in order, 32 bits each |
| `Wire.NumeralInjective` | src/process.cc:24-34 | length and numeral determine the bytes, so that law fixes the encoding |
| `Ordering.ComparatorLaws` | src/process.cc:208-228 | the comparator is a strict weak order whose equivalent elements differ at most in the proposer |
| `Ordering.LessIsRank` | src/process.cc:208-228 | the comparator compares one number made of sequence number, a bit that is 0 for undeliverable messages, sender and message id, in that order of weight |
| `Ordering.PrefixIsReleased` | src/process.cc:318-333 | in a sorted set the longest all-sequenced prefix is exactly the sequenced entries numbered below every unsequenced one |
| `Ordering.InsertSorted` | src/process.h:181-183 | insertion keeps the set sorted |
| `HoldBack.EnqueueKeepsValid` | src/process.cc:251-280 | inserting a key that is not pending finds no equivalent element (the second throw is unreachable), adds exactly one entry, and keeps index agreement and a drained head |
| `HoldBack.ResequencedMembers` | src/process.cc:298-316 | the erase removes the message's own unsequenced entry and nothing else, and its sequenced entry, or an equivalent one, is in the set afterwards |
| `HoldBack.SequenceKeepsValid` | src/process.cc:282-334 | a Seq, matched or not, keeps the map equal to the unsequenced part of the set and the head drained |
| `HoldBack.ScanSplits` | src/process.cc:318-333 | delivered and kept messages are the resequenced set cut in two, in its order |
| `HoldBack.ScanDeliversExactlyUnblocked` | src/process.cc:309-333 | a matched Seq delivers exactly the sequenced messages numbered strictly below every message still pending, in increasing order, all before what it keeps |
| `HoldBack.BeforeIsRank` | src/process.cc:208-228 | the order of deliveries is the comparator's, and compares final number, then sender, then message id |
| `HoldBack.HoldBackQueue.constructor` | src/process.h:143-184 | a new queue is empty and valid |
| `HoldBack.HoldBackQueue.Lookup` | src/process.cc:230-249 | the acknowledgement stored for a pending message, or none |
| `HoldBack.HoldBackQueue.InsertUndeliverable` | src/process.cc:251-280 | throws, changing nothing, exactly for a pending key; otherwise both structures get the message |
| `HoldBack.HoldBackQueue.DeliverHead` | src/process.cc:318-333 | the in-place scan delivers the released messages and leaves the retained ones |
| `HoldBack.HoldBackQueue.SetDeliverable` | src/process.cc:282-334 | both structures and the deliveries are those of the filter specification |
| `QueueHistory.RelyGuarantee` | src/process.cc:251-334 | for any history of calls whose inserted numbers are above all earlier ones and whose final numbers are not below the stored ones, re-inserted keys included, all deliveries together strictly increase in final number, sender and message id |
| `QueueHistory.NothingLost` | src/process.cc:251-334 | after any history of calls whatever, every message ever inserted is held or has been delivered |
| `QueueHistory.NothingSequencedLost` | src/process.cc:282-334 | after any history, a message sequenced while pending is held with that final number or was delivered with it |
| `QueueHistory.NothingInvented` | src/process.cc:251-334 | after any history, what was delivered or is held sequenced was sequenced so by a call while pending, and what is pending was inserted so |
| `QueueHistory.Replay` | src/process.cc:251-334 | the calls made one by one on a queue object leave its structures and give the deliveries that these statements speak of |
| `QueueHistory.AlwaysValid` | src/process.cc:251-334 | index agreement and a drained head after any history of calls whatever |
| `Counterexamples.RelyIsNeeded` | src/process.cc:251-334 | histories that break either number condition and deliver out of order |
| `Processes.NextSeqNum` | src/process.cc:453 | the next number exceeds the counter if and only if the counter is not 2^32 - 1 |
| `Processes.ForwardSeqNum` | src/process.cc:454-458 | the forwarded counter is the larger of the two |
| `Processes.Process.constructor` | src/process.h:190-197 | a new process has counter 0 and an empty queue |
| `Processes.Process.TakeSeqNum` | src/process.cc:453 | increments with 32-bit wrap-around |
| `Processes.Process.Forward` | src/process.cc:454-458 | the counter becomes the larger of the two |
| `Processes.Process.HandleDataMsg` | src/process.cc:374-398 | a valid Data gets the stored acknowledgement or a fresh proposal that is queued; anything else has no effect and no reply |
| `Processes.Process.HandleSeqMsg` | src/process.cc:400-422 | a valid Seq forwards the counter, is acknowledged, and delivers what the queue releases; anything else has no effect and no reply |
| `Processes.Process.Receive` | src/process.cc:343-371 | the reaction to any byte string: encodings of valid Data and Seq are handled, all else is dropped |
| `Processes.ReactionUnique` | src/process.cc:343-371 | that reaction is fully determined |
| `Processes.ReactionAnswers` | src/process.cc:343-422 | a process answers exactly Data of a known sender and Seq of a known sender and proposer; what it does not answer changes nothing |
| `Processes.DataAnswer` | src/process.cc:374-398 | a Data message delivers nothing and is answered with the number its message is now held with |
| `Processes.SeqAnswer` | src/process.cc:400-422 | a Seq message leaves its message no longer pending and the counter at its number or above, and is confirmed |
| `Senders.BackoffStep` | src/udp_conn.cc:105-108 | doubling below the cap computes min(2^k, 64) |
| `Senders.BackoffValues` | src/udp_conn.cc:83-108 | the multiplier is 1 exactly before the first timeout, 64 exactly from the sixth on, and never outside these |
| `Senders.SendWithAck` | src/udp_conn.cc:80-121 | for every stream of timeouts, failures and datagrams: which datagram ends it, how many sends, the multiplier after k timeouts (1 exactly if there was none, 64 exactly after six or more); without a limit it returns if and only if the validator accepts a datagram after only timeouts and refusals |
| `Senders.FinalStamp` | src/process.cc:496-508 | the largest proposal with the lowest process that made it |
| `Senders.FinalStampUnique` | src/process.cc:496-508 | there is only one such stamp |
| `Senders.MaxProposal` | src/process.cc:496-508 | the loop computes that stamp |
| `Senders.SendDataMsg` | src/process.cc:101-111 | gives the first proposal of its message by that process, and none exactly if none comes before a failure |
| `Senders.SendSeqMsg` | src/process.cc:124-144 | returns if and only if a confirmation of its message comes before a failure |
| `Senders.CollectProposals` | src/process.cc:463-515 | a Seq message is formed if and only if every process sent a matching proposal, from the first such proposal of each |
| `Senders.Announce` | src/process.cc:517-522 | processes are told in order, each until it confirms |
| `Safety.ReachableSafe` | src/process.cc:251-524 | after every run, wrapping or not: queues are valid, datagrams sent pass validation, a sender has recorded proposals really sent and its final number is their maximum, a proposal is stored until its message is sequenced there, a sequenced message is delivered or held, and deliveries are of final numbers (ANY) |
| `Invariant.StepKeeps` | src/process.cc:374-524 | a step keeps the order invariant (numbers only grow, deliveries come in order) if and only if it does not wrap a counter (ANY) |
| `Invariant.ReachableGood` | src/process.cc:374-524 | a reachable state keeps the invariant if and only if no step of the run wrapped a counter (ANY) |
| `Invariant.FewProposalsNeverWrap` | src/process.cc:453 | a run with fewer than 2^32 proposals in all wraps no counter (ANY) |
| `Theorems.PrefixAgreement` | src/process.cc:282-524 | first deliveries of any two processes, stamps included: one is a prefix of the other (ANY) |
| `Theorems.StampAgreement` | src/process.cc:282-524 | after every run, every delivery of a message at any process carries the one stamp that its sender fixed (ANY) |
| `Theorems.DownwardClosure` | src/process.cc:208-422 | if q delivered m and not k, then whatever final number k has or ever gets sorts after m's (ANY, over whole runs) |
| `Theorems.RealTimeOrder` | src/process.cc:453-508 | a message launched once another has its final number gets a strictly greater one, whoever sends the two (ANY, over whole runs) |
| `Theorems.FinalDominatesProposals` | src/process.cc:382-508 | after every run, a final number is at least every process's real proposal, and a process not yet told holds exactly its one proposal (ANY) |
| `Theorems.UniqueFinalStamps` | src/process.cc:453-508 | two messages never share final number and proposer (ANY) |
| `Theorems.NumbersBounded` | src/process.cc:390-458 | counters, proposals and final numbers are at most the number of proposals made (ANY) |
| `Theorems.ClockDominates` | src/process.cc:390-458 | a counter is at least all its process proposed or was told; unsequenced messages at a process have distinct numbers (ANY) |
| `Theorems.ClockAdvances` | src/process.cc:453-458 | no counter goes back in a run that wraps none (ANY, over whole runs) |
| `Theorems.StepAdvances` | src/process.cc:453-458 | in any state, a step takes a counter back if and only if it wraps that counter (ANY) |
| `Theorems.FreshProposalExceeds` | src/process.cc:384-394 | a message accepted afresh is pending with a number never acknowledged before, which is above the counter and everything its process proposed or was told if and only if the counter does not wrap (ANY) |
| `Theorems.QueuesAgree` | src/process.cc:251-334 | index agreement and drained head at every process after every run, wrapping or not (ANY) |
| `Integrity.LaunchedExactly` | src/process.cc:336-340 | after every run, the messages of the system are exactly those that the run launched (ANY) |
| `Integrity.DeliveredWasSent` | src/process.cc:336-524 | after every run, whatever was delivered was launched in the run, sent to the process, received there as Data and as exactly that Seq (ANY) |
| `Integrity.NetworkExactly` | src/process.cc:374-524 | after every run, the Data and Seq that can be received are exactly those put out, and Acks and SeqAcks are exactly those given on a reception (ANY) |
| `Callers.SystemPlays` | src/process.cc:374-422 | after every run, the queue and the log of a process are what the calls it made to its queue give (ANY) |
| `Callers.SystemIsCareful` | src/process.cc:374-458 | a process that receives no Data after its Seq and wraps no counter calls its queue with rising numbers and with final numbers not below the stored ones (ANY) |
| `Theorems.Conservation` | src/process.cc:298-394 | after every run, an accepted message is pending, waiting sequenced, or delivered (ANY) |
| `Theorems.DeliveredIff` | src/process.cc:309-333 | a message a process was told is delivered there if and only if everything still pending there has a number above its final number (ANY) |
| `Theorems.RepeatedDeliveryExactly` | src/process.cc:282-334 | a Seq repeats a delivery exactly when its message was delivered and is pending again, and repeats only that one (ANY) |
| `Schedule.PendingExactly` | src/process.cc:282-394 | over any run, a message is pending at a process if and only if its last reception there was a Data (ANY) |
| `Schedule.QueueEmptyIff` | src/process.cc:282-394 | after every run, wrapping or not, a queue is empty if and only if every Data its process received was followed by a Seq of the same message (ANY) |
| `Schedule.ExactlyOnceIff` | src/process.cc:282-394 | over a whole run, a process delivers no message twice if and only if no step hands it the Seq of a message delivered there and pending there again (ANY) |
| `Schedule.ExactlyOnceIfTimely` | src/process.cc:230-394 | after every run, a process that received no Data of a message after a Seq of it has delivered no message twice (ANY) |
| `Theorems.DataStepIsReaction` | src/process.cc:374-398 | the system's Data step is what the process does with the Data datagram on the wire, whatever its payload, in every run |
| `Theorems.SeqStepIsReaction` | src/process.cc:400-422 | the system's Seq step is what the process does with the Seq datagram on the wire, in every run |
| `SenderSteps.AckStepIsValidated` | src/process.cc:479-489 | for a sender asking process q, an Ack can be received exactly when it was sent and the validator for q accepts its encoding |
| `SenderSteps.SeqAckStepIsValidated` | src/process.cc:134-140 | for a sender telling process q, a SeqAck of q can be received exactly when it was sent and the validator of the Seq accepts its encoding |
| `SenderSteps.ThreadIsRun` | src/process.cc:463-524 | a thread that reads its answers at successive moments, with anything arriving besides and everybody else going on in between, is a run of the system: same record, Seq message and processes told as CollectProposals and Announce give, its answers received in order |
| `SenderSteps.RunIsThread` | src/process.cc:463-524 | in every run, each sender with a final number is such a thread: it started in a reachable state, read what it has recorded and been confirmed at successive moments, and others have gone on since |
| `SenderSteps.CollectedIsFinal` | src/process.cc:463-515 | until someone is told, in every run, whatever events arrive with every Ack among them really sent, CollectProposals gives that record and final number (ANY) |
| `FifoNetwork.FifoRefinesAny` | src/udp_conn.cc:80-121 | every run over ordered links is a run over the arbitrary network, which wraps a counter exactly when it does |
| `Links.LinksKeepOrder` | src/udp_conn.cc:71-121 | in every run, what was received from a link, followed by what is still on it, comes in the order in which copies were sent on it: some lost, some repeated, none overtaken (FIFO) |
| `Links.LinkExactly` | src/udp_conn.cc:71-121 | in every reachable state, until a sender reads another answer, copies can be sent on a link and received from it if and only if senders have those copies to send and the receptions come in the order of what is on the link followed by what is sent (FIFO) |
| `Links.SeqOnlyAfterData` | src/process.cc:473-522 | in every run, a Seq is sent on a link only if Data of the same message was received from it (FIFO) |
| `Links.NotEveryOrder` | src/process.cc:473-522 | so over a whole run not every order that a link allows occurs: Data and Seq sent and only the Seq received does not (FIFO) |
| `FifoNetwork.FRunSafe` | src/process.cc:374-524 | every run, wrapping or not, keeps data before seq on every link, no message accepted again once told, one proposal per process and message, and nothing delivered twice (FIFO) |
| `FifoNetwork.FStepKeeps` | src/process.cc:374-524 | a step keeps the FIFO invariant with the order invariant if and only if it does not wrap a counter |
| `FifoNetwork.FRunKeeps` | src/process.cc:374-524 | a run keeps the FIFO invariant if and only if no step of it wraps a counter |
| `FifoNetwork.FewMessagesNeverWrap` | src/process.cc:453 | with fewer than 2^32 pairs of a process and a launched message no run wraps a counter (FIFO) |
| `FifoNetwork.FLaunchedExactly` | src/process.cc:336-340 | after every run, the messages of the system are exactly those that the run launched (FIFO) |
| `FifoTheorems.DeliveredWasLaunched` | src/process.cc:336-524 | after every run, whatever was delivered was launched in the run and sent to the process as Data and Seq (FIFO) |
| `FifoTheorems.ExactlyOnce` | src/process.cc:230-394 | after every run, no message has been delivered twice, and no Data copy on a link is of a message told at its end (FIFO) |
| `FifoTheorems.FullPrefixAgreement` | src/process.cc:282-524 | of any two delivery logs one is a prefix of the other (FIFO) |
| `FifoTheorems.FifoNumbersBounded` | src/process.cc:390-458 | after every run at most one proposal per process and message; and until one wraps, counters are at most processes times messages (FIFO) |
| `FifoTheorems.ConservationExactly` | src/process.cc:298-394 | after every run, an accepted message is in exactly one of the three places (FIFO) |
| `FifoTheorems.Quiescence` | src/process.cc:282-422 | after every run, once told of all its messages, a process has an empty queue and its log is exactly the messages that the run launched, each once; and sorted, if no counter has wrapped (FIFO) |
| `Completion.MeasureNeverRises` | src/process.cc:463-524 | no step but a launch raises the number of missing acknowledgements (FIFO) |
| `Completion.MeasureCanFall` | src/process.cc:463-524 | after every run, for every message with acknowledgements missing, a run without losses moves its own sender on by one and no other (FIFO) |
| `Completion.EventualCompleteness` | src/process.cc:463-524 | after every run, wrapping or not, a continuation without losses or launches ends with every message that the run launched, and no other, delivered exactly once everywhere and all queues empty; and with equal logs, if no counter has wrapped by then, as none does below 2^32 pairs of a process and a message (FIFO) |
| `Completion.AnyMessagesDelivered` | src/process.cc:336-524 | whatever set of messages n processes are to send, in some run each is delivered exactly once everywhere and nothing else is; in the same order everywhere below 2^32 pairs of a process and a message (FIFO) |
| `Fairness.FairCompleteness` | src/udp_conn.cc:80-121 | in every infinite run that is fair, where on each link at least one thread that wants to send keeps sending, every launched message is delivered exactly once everywhere and all queues are empty from some moment on for ever; and all logs are equal, if no counter wraps (FIFO) |
| `Fairness.BoundedNeverWraps` | src/process.cc:453 | with fewer than 2^32 pairs of a process and a launched message no infinite run wraps a counter (FIFO) |
| `Fairness.FairRunExists` | src/udp_conn.cc:80-121 | after every run, some fair run goes on, which below 2^32 pairs of a process and a message wraps no counter (FIFO) |
| `Counterexamples.ArbitraryNetworkLeavesQueue` | src/process.cc:291-300 | a run after which everyone is told everything and a queue is not empty (ANY) |
| `Counterexamples.ArbitraryNetworkRepeats` | src/process.cc:382-394 | a run in which a message is delivered twice (ANY) |
| `WrapAround.WrapBreaksAgreement` | src/process.cc:453 | a run with a step that wraps a counter, in which two processes deliver two messages in opposite orders (ANY) |

## Left out

- Sockets, name resolution, errno and timeouts: foreign calls; receive outcomes are events of a stream, and the network is ANY or FIFO.
- Random delays, backoff sleeping and random ids: replaced by nondeterminism and the distinct-key hypothesis.
- The Data payload inside the queue and the system: the comparator ignores it and delivery does not expose it; it is part of the wire format.
- Hash functions and complexity claims: the map is a map and the ordered set a sorted sequence.
- Threads, joining and the recursive mutex of a client: a sender thread is the record of how far it has got, and threads of one process interleave freely; of the mutex only its effect on progress is modelled, in the fairness hypotheses.
- Send failures: an exception from sendto ends the program.
- Command line, host file parsing, logging and printing.
- Crashes and dishonest processes: the source waits for every process without limit and claims nothing about either.
