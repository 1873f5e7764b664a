# Verified core of the ZeroMQ 4.1.5 engine and of two adaptive caches

A Dafny model of the parts of this repository that are hardest to get right, with proofs of what they promise. The
ZeroMQ paths are below `zmq/zeromq-4.1.5/src`, the caches are `Ad_Rp` and `Adaptive_Replacement`.

| part | files | what is proved, in one line |
|---|---|---|
| queue | `YPipe.dfy` | the form with pointers refines a queue with an incomplete tail and a sleeping reader |
| pipe pair | `Pipe.dfy`, `PipeSafety.dfy`, `PipeFlow.dfy`, `PipeCredentials.dfy`, `PipeRuns.dfy`, `PipeAnswers.dfy`, `PipeNodelay.dfy`, `PipeCounts.dfy`, `PipeObject.dfy` | termination handshake, delivery and flow control over all interleavings of two ends; termination is reached, also by ends that never read |
| mailbox | `Mailbox.dfy` | no lost or doubled command or signal over all interleavings of atomic steps |
| ownership tree | `OwnTree.dfy`, `OwnSafety.dfy`, `OwnRuns.dfy`, `OwnObject.dfy` | asynchronous shutdown is safe, completes and is reached |
| subscription trie | `Mtrie.dfy`, `MtriePipe.dfy`, `MtrieRuns.dfy` | the compact trie is the subscription relation; its form is unique |
| distributor | `PipeArray.dfy`, `Dist.dfy`, `DistObject.dfy`, `Xpub.dfy` | each part to each matching pipe once, no gaps in messages, reference counts |
| fair queue, load balancer | `RoundRobin.dfy`, `Fq.dfy`, `Lb.dfy` | bounded waiting despite deactivation swaps |
| first ARC | `Arc.dfy`, `ArcSides.dfy`, `ArcRuns.dfy`, `ArcObject.dfy` | bounds, who is evicted, and recency order over every run |
| second ARC | `ArcJcs.dfy`, `ArcJcsSides.dfy`, `ArcJcsRuns.dfy`, `ArcJcsOrder.dfy` | consistency, the bounds that really hold, adaptation, recency order and what a get returns |
| codec drivers | `Codec.dfy`, `Encoder.dfy`, `V2Codec.dfy` | independence of fragmentation; round trip of the ZMTP 2.0 framing |

`dafny verify dfyconfig.toml` checks everything.

Protocols are step relations on values: `PipeProtocol.Step`, `OwnTree.Step`, `Mailboxes.Next`, `Distribution.Apply`,
`RoundRobin.Step`, `ArcRuns.Step`. Theorems speak of every sequence of steps. What the program does in place is a
class whose methods are proved to act on the object's `View()` as the function of the same name does.

## Findings

Places where a property one might expect is false of the code. Each is stated with its exact condition.

- Credential frames count against the high watermark when written and are not counted when read. Up to hwm - lwm of
  them are harmless; one more can stop the writer for good (`PipeFlow.NoLostWakeup`,
  `PipeCredentials.CredentialsStopWriter`).
- A hiccup takes all complete messages of the old queue off the writer's count, identities included, which were never
  on it; the count is low by their number from then on (`PipeCounts.HiccupReopens`).
- A child that asks for its termination between the `plug` and the `own` command of its launch is not heard
  (`OwnRuns.RequestLost`); requests made after that are honoured (`OwnRuns.RequestHonoured`,
  `OwnRuns.RequestHeeded`).
- The load balancer asserts that a pipe which took a part takes the next one. That fails exactly when the pipe has
  left the active state in between (`PipeFlow.ContinuationRefused`, `RoundRobin.SomethingServed`); a run that does it
  is `PipeRuns.RestIsRefused`.
- Removing another pipe in the middle of a message can make the fair queue and the load balancer go on with a
  different pipe (`RoundRobin.RemovalKeepsCurrent` has the exact case, `RoundRobin.RemovalMixesMessages` a run).
- The comment at fq.cpp:139-142 says `current` returns to its value when nothing can be read; it becomes 0
  (`RoundRobin.NothingStartsOver`). Bounded waiting holds all the same.
- `mtrie_t::rm` of a topic answers true also for a topic nobody subscribed to, as long as the trie has a node for it,
  and asserts if the topic has other subscribers only (`Mtrie.Remove`).
- With NODROP, a publish that is refused leaves its pipes marked, and the next message goes to them as well
  (`Xpub.Publisher.Send`, `Xpub.Publisher.WantedIs` for the exact condition, `Xpub.MarksOutlive` for an instance).
- The second ARC exceeds the bounds of its documentation (ARCsource.java:174-177) by one
  (`ArcJcsRuns.DocumentedBoundsFail`, `ArcJcs.PutKeeps`), and a put on a resident key keeps the old element
  (`ArcJcsRuns.GetAfterPut`).
- The first ARC never finds t2 empty when it has to evict, unless keys are removed explicitly (`Arc.VisitEvicts`,
  `Arc.VisitEvictsNothing`, `ArcRuns.NothingToEvict`).

## Assumptions

- Commands from one end of a pipe to the other arrive in order; commands to different objects of the ownership tree
  may overtake each other, those in one mailbox do not. An object in the middle of launching a child does nothing else,
  while others go on.
- The outcome of calls into parts outside a component is a parameter: which pipes are readable or writable, which
  refuse a part, which are full, when receivers close their copies, the sizes of buffers and of received pieces.
- Cache capacities are at least 1. Watermarks do not change while the pipe is in use. `dist_t::match` is called
  between messages, `activated` for passive pipes, and all parts of a message are sent by the same operation.
- The ypipe contract used by pipes and mailbox is proved of `YPipes.YPipe`, each of whose methods is one step: that the
  compare-and-swap of `flush` and the store after it are two accesses is modelled in `Mailboxes.Next` only. The mailbox
  object uses a `YPipe`; the pipe object holds queue values. For the first ARC, visit, remove and the
  queue helpers are those of `MultipleQueueCacheManager.java` and `ReplacementCacheManager.java`.

## Model

| member | source | states |
|---|---|---|
| YPipes.YPipe.Write | zmq/zeromq-4.1.5/src/ypipe.hpp:83-95 | a written item joins the incomplete message, or completes it so that the next flush covers it |
| YPipes.YPipe.Unwrite | zmq/zeromq-4.1.5/src/ypipe.hpp:100-107 | only the incomplete tail can be taken back, last item first |
| YPipes.YPipe.Flush | zmq/zeromq-4.1.5/src/ypipe.hpp:112-135 | complete items become readable; the answer is false exactly when the reader is asleep, and flushing wakes it |
| YPipes.YPipe.CheckRead | zmq/zeromq-4.1.5/src/ypipe.hpp:138-160 | true exactly when a flushed item is there; otherwise the reader is asleep afterwards |
| YPipes.YPipe.Read | zmq/zeromq-4.1.5/src/ypipe.hpp:163-173 | items come out in the order written, each once |
| PipeProtocol.ComputeLwm | zmq/zeromq-4.1.5/src/pipe.cpp:442-468 | the low watermark is half a positive high watermark, rounded up, or MAX_WM_DELTA below a large one |
| PipeSafety.RunSafe | zmq/zeromq-4.1.5/src/pipe.cpp:262-363 | the joint invariant of the two ends, both command channels and all queues holds after every interleaving of terminate, read, write, flush, rollback, hiccup and delivery |
| PipeSafety.NoAssertionFails | zmq/zeromq-4.1.5/src/pipe.cpp:287-363 | after every run no state assertion has failed, no command is in flight to a freed end and nothing follows an acknowledgement in flight |
| PipeSafety.AckIsLast | zmq/zeromq-4.1.5/src/pipe.cpp:328-363 | from its acknowledgement on an end sends no command and writes no item, whatever it does; a freed end takes no step |
| PipeFlow.RunInv | zmq/zeromq-4.1.5/src/pipe.cpp:128-260 | conservation, wake-up and credit invariants of both directions hold after every run without hiccup |
| PipeFlow.TerminationCompletes | zmq/zeromq-4.1.5/src/pipe.cpp:370-435 | once an end was terminated, a state without undelivered commands and unread items has both ends freed |
| PipeFlow.DeliveredInOrder | zmq/zeromq-4.1.5/src/pipe.cpp:154-189 | a reader that kept its delay and did not terminate itself has received, once freed, exactly the complete messages the writer accepted, in order; before that always a prefix of them |
| PipeAnswers.ReadAnswer | zmq/zeromq-4.1.5/src/pipe.cpp:154-189 | a read of a reading end with an open gate answers with the first message that is not a credential frame, if it is there before any delimiter, and hands over exactly that; in all other cases it answers nothing and hands over nothing |
| PipeAnswers.CheckReadAnswer | zmq/zeromq-4.1.5/src/pipe.cpp:128-152 | a check is true exactly when the end reads, its gate is open and the next item is a message, and it takes nothing but a delimiter |
| PipeAnswers.RefusalShutsGate | zmq/zeromq-4.1.5/src/pipe.cpp:191-218 | an active end's gate is open after a write, or a check for one, exactly if the write was to be accepted |
| PipeAnswers.ReadsAreGot | zmq/zeromq-4.1.5/src/pipe.cpp:154-189 | in every run, hiccups included, the answers of all reads one after the other are what was handed over |
| PipeAnswers.WritesAreLogged | zmq/zeromq-4.1.5/src/pipe.cpp:206-231 | in every run without hiccup the accepted messages are those whose writes were answered true, part after part, without the unfinished ones that rollback or terminate dropped |
| PipeAnswers.AnswersInOrder | zmq/zeromq-4.1.5/src/pipe.cpp:154-231 | delivery in terms of the answers alone: what the reads of one end answered is a prefix of what the writes of the other were told was accepted, and all of it once a reader that kept its delay and did not terminate itself is freed |
| PipeFlow.ContinuationRefused | zmq/zeromq-4.1.5/src/pipe.cpp:191-218 | a further part of a message begun on a pipe is refused if and only if that end has left the active state |
| PipeFlow.NoLostWakeup | zmq/zeromq-4.1.5/src/pipe.cpp:182-218 | an active writer is refused exactly when it is at its watermark (a shut gate included); reports climb to lwm * (msgs_read / lwm), unread complete messages never exceed hwm, and a writer at its watermark has a report of more read messages in flight or something to read, as long as at most hwm - lwm credential frames were written |
| PipeFlow.ReportOpensGate | zmq/zeromq-4.1.5/src/pipe.cpp:251-260 | a report leaves the gate of an active writer open, and the next write is accepted if and only if the writer was not at its watermark or the report counts more read messages than it knew of |
| PipeCredentials.CredentialsStopWriter | zmq/zeromq-4.1.5/src/pipe.cpp:168-218 | for every watermark there is a run with one credential frame more than that after which not one more message is accepted, whatever is done short of terminating or a hiccup; so the allowance is exact |
| PipeCredentials.StuckForever | zmq/zeromq-4.1.5/src/pipe.cpp:182-218 | a writer at its watermark whose peer has read everything and has nothing new to report stays so under every move but terminate and hiccup |
| PipeRuns.ExecFlips | zmq/zeromq-4.1.5/src/pipe.cpp:39-74 | the pair is symmetric: a run seen from the other end is a run, so every theorem holds in both directions |
| PipeRuns.DeliveredBothWays | zmq/zeromq-4.1.5/src/pipe.cpp:154-189 | delivery in order, in both directions |
| PipeRuns.AckEndsBothWays | zmq/zeromq-4.1.5/src/pipe.cpp:328-363 | nothing follows an acknowledgement, from either end |
| PipeRuns.GateBothWays | zmq/zeromq-4.1.5/src/pipe.cpp:191-204 | either end, while active, is refused only at its watermark |
| PipeRuns.RestIsRefused | zmq/zeromq-4.1.5/src/pipe.cpp:287-326 | a run in which a part is accepted and, after the peer's termination request, the next part is refused |
| PipeRuns.DrainIsBounded | zmq/zeromq-4.1.5/src/pipe.cpp:243-363 | once users only read, at most as many deliveries and reads as the weight of the state get anything done |
| PipeRuns.TerminationIsReached | zmq/zeromq-4.1.5/src/pipe.cpp:287-435 | after any run in which an end was terminated, deliveries and reads alone lead to both ends freed, and no sequence of them goes on longer than the weight |
| PipeNodelay.RequestAnswered | zmq/zeromq-4.1.5/src/pipe.cpp:287-326 | in every run a termination request is acknowledged on delivery, unless the end is active with delay: then it waits for the delimiter and sends nothing |
| PipeNodelay.BecomesEager | zmq/zeromq-4.1.5/src/pipe.cpp:365-435 | an active end set nodelay, and any end its user terminated without delay, waits for no delimiter |
| PipeNodelay.NodelayCompletes | zmq/zeromq-4.1.5/src/pipe.cpp:287-435 | an end that was set nodelay need not read: once an end was terminated, a state without undelivered commands, in which nothing is left to read for the other end, or that end has no delay either, has both ends freed |
| PipeNodelay.NodelayIsReached | zmq/zeromq-4.1.5/src/pipe.cpp:287-435 | and deliveries and reads of the other end alone lead there after any run |
| PipeCounts.CountersAreRight | zmq/zeromq-4.1.5/src/pipe.cpp:154-218 | in every run without hiccup the counters of both ends are the numbers of complete messages other than identities that were accepted and handed over |
| PipeCounts.HiccupReopens | zmq/zeromq-4.1.5/src/pipe.cpp:262-285 | after a hiccup of a pair of active ends without commands in flight the writer's count is what its reader has read, plus credential frames skipped, less the identities in the old queue; its gate is open, the old queue's content is gone, and the next write is accepted as long as at most hwm - lwm credential frames were skipped |
| PipeCredentials.SkipAll | zmq/zeromq-4.1.5/src/pipe.cpp:154-189 | reading only credential frames hands nothing over and counts nothing as read |
| PipeObject.Pipe.CheckRead | zmq/zeromq-4.1.5/src/pipe.cpp:128-152 | the object acts as the protocol's handler, whose answer is PipeAnswers.CheckReadAnswer; a delimiter ends the inbound stream |
| PipeObject.Pipe.Read | zmq/zeromq-4.1.5/src/pipe.cpp:154-189 | the read loop that skips credential frames is the protocol's recursive read, whose answer and effect are PipeAnswers.ReadAnswer |
| PipeObject.Pipe.CheckWrite | zmq/zeromq-4.1.5/src/pipe.cpp:191-204 | the answer and the write gate are the protocol's |
| PipeObject.Pipe.Write | zmq/zeromq-4.1.5/src/pipe.cpp:206-218 | a message is accepted exactly when the protocol accepts it, and counted the same way |
| PipeObject.Pipe.Rollback | zmq/zeromq-4.1.5/src/pipe.cpp:220-231 | the loop takes back exactly the incomplete message |
| PipeObject.Pipe.Flush | zmq/zeromq-4.1.5/src/pipe.cpp:233-241 | the peer is told to read exactly when it is asleep |
| PipeObject.Pipe.ProcessActivateRead | zmq/zeromq-4.1.5/src/pipe.cpp:243-249 | the read gate opens as in the protocol |
| PipeObject.Pipe.ProcessActivateWrite | zmq/zeromq-4.1.5/src/pipe.cpp:251-260 | the write gate opens as in the protocol |
| PipeObject.Pipe.ProcessHiccup | zmq/zeromq-4.1.5/src/pipe.cpp:262-285 | the loop that drains the old queue takes its complete messages off the count; then the new queue is used |
| PipeObject.Pipe.ProcessPipeTerm | zmq/zeromq-4.1.5/src/pipe.cpp:287-326 | the transitions on a termination request, by delay and state; PipeNodelay.RequestAnswered says when it is acknowledged at once |
| PipeObject.Pipe.ProcessPipeTermAck | zmq/zeromq-4.1.5/src/pipe.cpp:328-363 | the transitions on an acknowledgement; unread items are dropped and the end is freed |
| PipeObject.Pipe.Terminate | zmq/zeromq-4.1.5/src/pipe.cpp:370-435 | the transitions on a user's request, rollback and delimiter included |
| PipeObject.Pipe.ProcessDelimiter | zmq/zeromq-4.1.5/src/pipe.cpp:470-482 | the transitions on a delimiter |
| PipeObject.Pipe.Hiccup | zmq/zeromq-4.1.5/src/pipe.cpp:484-507 | a new inbound queue is created and announced, in the active state only |
| Mailboxes.RunInv | zmq/zeromq-4.1.5/src/mailbox.cpp:58-96 | the invariant of queue pointers, lock, signals and receiver holds after every interleaving of the atomic steps of senders and receiver |
| Mailboxes.InOrder | zmq/zeromq-4.1.5/src/mailbox.cpp:58-96 | the read after a signal never fails, and the receiver has the commands in lock order, none lost and none twice |
| Mailboxes.OneSignal | zmq/zeromq-4.1.5/src/mailbox.cpp:58-66 | there is never more than one signal pending or about to be sent, and exactly one when a passive receiver has queued commands |
| Mailboxes.NothingStuck | zmq/zeromq-4.1.5/src/mailbox.cpp:68-96 | when all senders are done and the receiver can only time out, every command was received |
| Mailboxes.Mailbox.Send | zmq/zeromq-4.1.5/src/mailbox.cpp:58-66 | the command is appended, and signalled when the receiver sleeps |
| Mailboxes.Mailbox.Recv | zmq/zeromq-4.1.5/src/mailbox.cpp:68-96 | the first command is returned, and nothing exactly when there is none |
| OwnSafety.RunInv | zmq/zeromq-4.1.5/src/own.cpp:65-209 | the invariant of all objects, parent-child edges and mailboxes holds after every interleaving of launches, requests, sequence-numbered commands and deliveries |
| OwnSafety.ShutdownIsSafe | zmq/zeromq-4.1.5/src/own.cpp:157-209 | no assertion fails, so `term` is processed at most once and no command reaches a destroyed object; term_acks counts the children told to terminate whose ack is unprocessed (plus own events); a destroyed object has no live child, no command in flight to it and none promised |
| OwnSafety.FinishedIsAlone | zmq/zeromq-4.1.5/src/own.cpp:193-209 | when the test for destruction succeeds, the mailbox is empty, nothing is promised and all children are gone |
| OwnSafety.NoneHalfway | zmq/zeromq-4.1.5/src/own.cpp:193-209 | at rest no object is caught between starting to terminate and being destroyed (induction over the tree) |
| OwnSafety.ShutdownCompletes | zmq/zeromq-4.1.5/src/own.cpp:157-209 | once the root terminates, a run comes to rest only with every object destroyed |
| OwnRuns.ShutdownIsReached | zmq/zeromq-4.1.5/src/own.cpp:157-209 | once the root terminates, deliveries, promised commands and events alone lead to every object destroyed, and no sequence of them is longer than the sum of what there was to do |
| OwnRuns.RequestHonoured | zmq/zeromq-4.1.5/src/own.cpp:97-118 | at rest, a child that asked to be terminated once `own` had been sent is gone |
| OwnRuns.RequestHeeded | zmq/zeromq-4.1.5/src/own.cpp:97-118 | a request is heeded if and only if the child is owned when it is processed; otherwise it changes nothing |
| OwnRuns.RequestLost | zmq/zeromq-4.1.5/src/own.cpp:80-118 | a run in which a child asks between `plug` and `own`, and lives on at rest |
| OwnObject.Objects.OnTerm | zmq/zeromq-4.1.5/src/own.cpp:157-172 | the loop over the owned objects tells each of them once, and the acks awaited are their number |
| OwnObject.Objects.PostTermToAll | zmq/zeromq-4.1.5/src/own.cpp:163-166 | the loop posts `term` to each owned object, whatever the order |
| OwnObject.Objects.OnTermReq | zmq/zeromq-4.1.5/src/own.cpp:97-118 | a request is ignored while terminating and for objects not owned; otherwise the child is told once |
| OwnObject.Objects.OnOwn | zmq/zeromq-4.1.5/src/own.cpp:120-132 | a child that arrives while its owner terminates is told to terminate at once |
| OwnObject.Objects.OnSeqnum | zmq/zeromq-4.1.5/src/own.cpp:71-78 | a processed sequence-numbered command may be the last thing awaited |
| OwnObject.Objects.Unregister | zmq/zeromq-4.1.5/src/own.cpp:179-191 | an ack less to await |
| OwnObject.Objects.CheckAcks | zmq/zeromq-4.1.5/src/own.cpp:193-209 | the object is destroyed and confirms to its owner exactly when it terminates, has processed all sequence-numbered commands and awaits no ack |
| OwnObject.Objects.PlugChild | zmq/zeromq-4.1.5/src/own.cpp:80-86 | the first half of a launch: the child has its owner and its `plug`, counted beforehand |
| OwnObject.Objects.TakeOwnership | zmq/zeromq-4.1.5/src/own.cpp:88-90 | the second half: `own` is sent, counted beforehand; others may have acted in between |
| OwnObject.Objects.TerminateSelf | zmq/zeromq-4.1.5/src/own.cpp:134-150 | the root starts at once, other objects ask their owner |
| Mtrie.Extend | zmq/zeromq-4.1.5/src/mtrie.cpp:91-139 | the table grows to hold a byte, no entry is lost or moved to another byte |
| Mtrie.Add | zmq/zeromq-4.1.5/src/mtrie.cpp:72-157 | exactly the pair (topic, pipe) is added, the answer is true exactly for the first subscriber, the form stays canonical |
| Mtrie.Prune | zmq/zeromq-4.1.5/src/mtrie.cpp:320-389 | deleting a child and compacting (single node, from the left, from the right) leaves all other children, and the canonical form |
| Mtrie.Remove | zmq/zeromq-4.1.5/src/mtrie.cpp:291-392 | exactly the pair goes; the assertion fails if and only if the topic has subscribers and the pipe is not one of them; the answer is true exactly if the topic's node exists and has no subscriber left |
| MtriePipe.RemovePipe | zmq/zeromq-4.1.5/src/mtrie.cpp:169-289 | the recursion with its shared buffer writes within the buffer, reports the topics of the table order and removes the pipe everywhere |
| MtriePipe.Compact | zmq/zeromq-4.1.5/src/mtrie.cpp:242-288 | the compacted table has the same children, and its ends are used |
| MtriePipe.Rm | zmq/zeromq-4.1.5/src/mtrie.cpp:160-289 | removing a pipe removes precisely its pairs, and reports each topic it was alone on exactly once, in lexicographic order |
| MtriePipe.SoleTopicsAre | zmq/zeromq-4.1.5/src/mtrie.cpp:169-289 | a topic is among those reported if and only if the pipe is its only subscriber |
| MtriePipe.SoleTopicsIncrease | zmq/zeromq-4.1.5/src/mtrie.cpp:214-240 | the order of the tables is the lexicographic order |
| MtrieRuns.Match | zmq/zeromq-4.1.5/src/mtrie.cpp:394-435 | for every prefix of the data, shortest first, each subscriber of that prefix is called once, and nobody else |
| MtrieRuns.CanonicalIsUnique | zmq/zeromq-4.1.5/src/mtrie.cpp:77-157 | tries that denote the same subscriptions are structurally equal, up to `min` of childless nodes |
| MtrieRuns.AddThenRemove | zmq/zeromq-4.1.5/src/mtrie.cpp:72-157 | subscribing anew and unsubscribing restores the structure |
| MtrieRuns.Apply | zmq/zeromq-4.1.5/src/mtrie.cpp:72-392 | one operation after any run: the answers are first and last subscriber with respect to the run, the reports are the topics the pipe was alone on |
| MtrieRuns.Run | zmq/zeromq-4.1.5/src/mtrie.cpp:72-392 | after any legal sequence of operations the trie denotes exactly the subscriptions made and not undone |
| PipeArrays.PipeArray.PushBack | zmq/zeromq-4.1.5/src/array.hpp:114-119 | the item is appended and knows its place |
| PipeArrays.PipeArray.Erase | zmq/zeromq-4.1.5/src/array.hpp:121-130 | the last item takes the place of the erased one, all places stay right |
| PipeArrays.PipeArray.Swap | zmq/zeromq-4.1.5/src/array.hpp:132-139 | two items change places, all places stay right |
| PipeArrays.SwapFront | zmq/zeromq-4.1.5/src/array.hpp:132-139 | a swap on one side of a boundary leaves the part in front of it alone, a swap across exchanges two items |
| Distribution.AttachKeeps | zmq/zeromq-4.1.5/src/dist.cpp:49-65 | the new pipe is active between messages, only eligible within one; no other pipe changes its part |
| Distribution.MatchKeeps | zmq/zeromq-4.1.5/src/dist.cpp:67-80 | exactly the pipe is marked, if it is active |
| Distribution.UnmatchKeeps | zmq/zeromq-4.1.5/src/dist.cpp:82-85 | no pipe is marked, nothing else changes |
| Distribution.TerminatedKeeps | zmq/zeromq-4.1.5/src/dist.cpp:87-105 | the pipe leaves all parts of the array, the others stay in theirs |
| Distribution.ActivatedKeeps | zmq/zeromq-4.1.5/src/dist.cpp:107-119 | a passive pipe becomes eligible, and active between messages |
| Distribution.PushMeaning | zmq/zeromq-4.1.5/src/dist.cpp:144-205 | the swap-and-retry loop offers the part to each matching pipe exactly once; precisely those that refuse become passive, the others have the part |
| Distribution.SendToMatchingKeeps | zmq/zeromq-4.1.5/src/dist.cpp:127-142 | a part goes to the matching pipes that take it, a last part is flushed and makes all eligible pipes active, and no pipe gets a part without those before it |
| Distribution.SendToAllKeeps | zmq/zeromq-4.1.5/src/dist.cpp:121-125 | the same for the active pipes |
| Distribution.NoGaps | zmq/zeromq-4.1.5/src/dist.cpp:49-142 | in every run, with attaching, activation and termination between the parts, no pipe has a part without all earlier parts or a part twice, and between messages every eligible pipe is active |
| DistObject.Content.AddRefs | zmq/zeromq-4.1.5/src/msg.cpp:341-362 | the count stays the number of references, and an unshared content becomes shared when there is more than one |
| DistObject.Content.RmRefs | zmq/zeromq-4.1.5/src/msg.cpp:364-395 | the content is freed, once, exactly when no reference is left |
| DistObject.Content.Close | zmq/zeromq-4.1.5/src/msg.cpp:143-177 | closing gives one reference back, the last one frees |
| DistObject.Distributor.Write | zmq/zeromq-4.1.5/src/dist.cpp:191-205 | the three swaps after a refusal are the specified demotion |
| DistObject.Distributor.PushAll | zmq/zeromq-4.1.5/src/dist.cpp:166-178 | the loop is the specified one; with receivers closing copies at any time the count stays the copies alive plus the references not yet handed out |
| DistObject.Distributor.Distribute | zmq/zeromq-4.1.5/src/dist.cpp:144-184 | afterwards the count equals the live copies; the content is freed exactly once if there are none, and not yet otherwise |
| DistObject.Distributor.SendToMatching | zmq/zeromq-4.1.5/src/dist.cpp:127-142 | the object acts as specified, the sender's reference is used up |
| DistObject.Distributor.SendToAll | zmq/zeromq-4.1.5/src/dist.cpp:121-125 | the object acts as specified, the sender's reference is used up |
| DistObject.Distributor.Attach | zmq/zeromq-4.1.5/src/dist.cpp:49-65 | the object acts as specified |
| DistObject.Distributor.Match | zmq/zeromq-4.1.5/src/dist.cpp:67-80 | the object acts as specified |
| DistObject.Distributor.PipeTerminated | zmq/zeromq-4.1.5/src/dist.cpp:87-105 | the object acts as specified |
| DistObject.Distributor.Activated | zmq/zeromq-4.1.5/src/dist.cpp:107-119 | the object acts as specified |
| DistObject.Distributor.CheckHwm | zmq/zeromq-4.1.5/src/dist.cpp:207-214 | true exactly when no matching pipe is full |
| Xpub.Publisher.Send | zmq/zeromq-4.1.5/src/xpub.cpp:136-159 | the first part goes to the active pipes with a subscription that is a prefix of the data, and to pipes marked before; later parts to the pipes still marked; without dropping, a full pipe refuses the whole and the marks stay |
| Xpub.Publisher.PipeTerminated | zmq/zeromq-4.1.5/src/xpub.cpp:120-128 | all subscriptions of the pipe go with it, and the topics nobody wants any more are passed on in lexicographic order |
| Xpub.Publisher.Subscribe | zmq/zeromq-4.1.5/src/xpub.cpp:77-78 | exactly this subscription is added |
| Xpub.Publisher.AttachPipe | zmq/zeromq-4.1.5/src/xpub.cpp:50-58 | the pipe is active between messages and eligible within one, its marks and those of others are as before; it is subscribed to everything if that is wanted |
| Xpub.Publisher.WantedIs | zmq/zeromq-4.1.5/src/xpub.cpp:136-159 | a first part goes to exactly the active subscribers that take it if and only if the pipes marked before, other than refusing ones, are subscribers; so it is whenever no message was refused since the last complete one |
| Xpub.MarksOutlive | zmq/zeromq-4.1.5/src/xpub.cpp:136-159 | two publishes without dropping: the first is refused, the second goes to a pipe that did not subscribe to it |
| RoundRobin.BoundedWaiting | zmq/zeromq-4.1.5/src/fq.cpp:75-131 | over n attached pipes, an active pipe that can be served is served after at most its cyclic distance, hence at most n - 1, complete messages of others, whatever is deactivated and activated |
| RoundRobin.ActivatedIsServed | zmq/zeromq-4.1.5/src/fq.cpp:75-80 | a pipe that is activated and stays ready is served after at most the messages of the pipes active from the current place on, hence at most n - 1 |
| RoundRobin.AttachedIsServed | zmq/zeromq-4.1.5/src/fq.cpp:48-53 | the same for a pipe that is attached |
| RoundRobin.ActivatedKeeps | zmq/zeromq-4.1.5/src/lb.cpp:74-79 | the activated pipe is active behind the others, and nobody has to wait longer for it |
| RoundRobin.AttachKeeps | zmq/zeromq-4.1.5/src/lb.cpp:48-52 | the attached pipe is active behind the others, and only those before the current place have to let it pass, once |
| RoundRobin.SomethingServed | zmq/zeromq-4.1.5/src/fq.cpp:94-123 | as long as a pipe can be served something is served, and the assertion fails if and only if the rest of a message is not there |
| RoundRobin.ProbeAnswer | zmq/zeromq-4.1.5/src/lb.cpp:139-160 | a probe answers true if and only if a message is unfinished or an active pipe is ready; without an unfinished message that is exactly when serving next serves something |
| RoundRobin.ServeAnswer | zmq/zeromq-4.1.5/src/fq.cpp:87-131 | serving answers with a ready active pipe, the current one if that is ready, and with nothing exactly when no active pipe is ready; the assertion fails exactly when the pipe of an unfinished message is not ready |
| RoundRobin.WaitIsExact | zmq/zeromq-4.1.5/src/fq.cpp:87-131 | the bound is exact: with all pipes active and served all the time a pipe waits for as many messages as its distance |
| RoundRobin.PartsTogether | zmq/zeromq-4.1.5/src/fq.cpp:87-155 | after a part that is not the last one, whatever happens short of removal, the next part served is of the same pipe |
| RoundRobin.RemovalMixesMessages | zmq/zeromq-4.1.5/src/fq.cpp:55-67 | three pipes attached, two messages served, the third pipe in mid-message and the second removed: the next part is one of the first pipe |
| RoundRobin.RemovalKeepsCurrent | zmq/zeromq-4.1.5/src/fq.cpp:55-67 | removing another pipe keeps the current one if and only if the current one is not the last active pipe, or the removed one is the first or passive |
| RoundRobin.RemovalKeeps | zmq/zeromq-4.1.5/src/lb.cpp:54-72 | exactly the pipe is removed |
| RoundRobin.RemovalKeepsActive | zmq/zeromq-4.1.5/src/lb.cpp:54-72 | the other pipes stay active, or passive, and the number of active pipes goes down exactly for an active pipe |
| RoundRobin.NothingStartsOver | zmq/zeromq-4.1.5/src/fq.cpp:133-155 | when nothing can be served the rotation starts over at the first place (the comment in the code says otherwise) |
| FairQueue.Fq.RecvPipe | zmq/zeromq-4.1.5/src/fq.cpp:87-131 | the loop serves as specified and remembers the pipe of the last complete message |
| FairQueue.Fq.HasIn | zmq/zeromq-4.1.5/src/fq.cpp:133-155 | the answer is true if and only if a message is unfinished or an active pipe is readable; the loop skips as specified |
| FairQueue.Fq.PipeTerminated | zmq/zeromq-4.1.5/src/fq.cpp:55-73 | the object removes as specified, and keeps the credential if the last message came from the pipe |
| FairQueue.Fq.Activated | zmq/zeromq-4.1.5/src/fq.cpp:75-80 | the pipe is active behind the others, as specified |
| FairQueue.Fq.Attach | zmq/zeromq-4.1.5/src/fq.cpp:48-53 | the pipe is active behind the others, as specified |
| LoadBalancer.Lb.SendPipe | zmq/zeromq-4.1.5/src/lb.cpp:86-137 | the loop serves as specified, complete messages are flushed; the rest of a message whose pipe is gone is dropped |
| LoadBalancer.Lb.HasOut | zmq/zeromq-4.1.5/src/lb.cpp:139-160 | the answer is true if and only if a message is unfinished or an active pipe is writable; the loop skips as specified |
| LoadBalancer.Lb.PipeTerminated | zmq/zeromq-4.1.5/src/lb.cpp:54-72 | the object removes as specified; dropping starts exactly when the pipe of an unfinished message goes |
| LoadBalancer.Lb.Activated | zmq/zeromq-4.1.5/src/lb.cpp:74-79 | the pipe is active behind the others, as specified |
| LoadBalancer.Lb.Attach | zmq/zeromq-4.1.5/src/lb.cpp:48-52 | the pipe is active behind the others, as specified |
| Arc.VisitSizes | Ad_Rp/src/AdaptiveReplacementCacheManager.java:41-145 | a visit keeps left side and residents within the capacity, the directory within twice the capacity and the target within the capacity, also after removals; the queues that nodes are removed from are never empty |
| Arc.VisitResidents | Ad_Rp/src/AdaptiveReplacementCacheManager.java:80-145 | after a visit the key is resident, every key is in the one queue its index tells, and the other residents are those before but for one evicted |
| Arc.VisitEvicts | Ad_Rp/src/AdaptiveReplacementCacheManager.java:80-119 | without removal, ghosts mean a full cache, and a visit evicts exactly when the cache is full and the key not resident: the case of an empty t2 is unreachable |
| Arc.VisitEvictsNothing | Ad_Rp/src/AdaptiveReplacementCacheManager.java:80-145 | removals included: a visit evicts nothing if and only if the key is resident, or there is room, or t2 is empty and t1 within the target |
| ArcRuns.NothingToEvict | Ad_Rp/src/AdaptiveReplacementCacheManager.java:106-119 | a run from an empty cache, with a removal, in which the case of an empty t2 arises |
| Arc.AdaptsTowards | Ad_Rp/src/AdaptiveReplacementCacheManager.java:131-141 | a hit on b1 raises the target and a hit on b2 lowers it, by the ratio of the queues, unless it is at its bound |
| Arc.GhostHitFavours | Ad_Rp/src/AdaptiveReplacementCacheManager.java:122-145 | a hit on b1 evicts from t1 only when t1 exceeds even the raised target, a hit on b2 evicts from t2 only when t1 is below even the lowered one |
| ArcSides.VisitTarget | Ad_Rp/src/AdaptiveReplacementCacheManager.java:127-141 | the target after a visit, exactly: up for b1 and down for b2 by the ratio of the other ghost queue to this one, at least 1, or to its bound; unchanged by any other visit |
| ArcSides.VisitSide | Ad_Rp/src/AdaptiveReplacementCacheManager.java:80-119 | whom a visit evicts, unless t1 alone fills the cache: the oldest key of t1 if t1 exceeds the target in force (the old one on a miss, the moved one on a ghost hit), or equals it on a hit on b2, and else the oldest of t2; it becomes the newest ghost of its side, and the other queue of residents only gains the visited key |
| ArcSides.FullLeft | Ad_Rp/src/AdaptiveReplacementCacheManager.java:87-90 | a miss when t1 alone fills the cache: its oldest key goes and is forgotten |
| ArcSides.ResidentHit | Ad_Rp/src/AdaptiveReplacementCacheManager.java:122-126 | a hit on a resident makes it the newest of t2 and changes nothing else |
| ArcRuns.RunKeeps | Ad_Rp/src/AdaptiveReplacementCacheManager.java:80-145 | in every run, removals included: bounds, index, recency order of b1 then t1 and of b2 then t2, and keys of the left side visited once, of the right side more often |
| ArcRuns.RunEvicts | Ad_Rp/src/AdaptiveReplacementCacheManager.java:80-119 | in every run without removal the eviction rule holds at every visit |
| ArcRuns.VisitShifts | Ad_Rp/src/AdaptiveReplacementCacheManager.java:80-145 | what a visit does to the two sides: the visited key becomes the newest, and on a miss the oldest key of the left side is forgotten if that has reached the capacity, or else that of the right side if the directory has reached twice the capacity, and no other |
| ArcRuns.ShiftRecency | Ad_Rp/src/AdaptiveReplacementCacheManager.java:80-145 | each side stays strictly increasing in the time of the last visit |
| ArcRuns.GhostsAreOlder | Ad_Rp/src/AdaptiveReplacementCacheManager.java:106-119 | every resident is more recent than every ghost of its side |
| ArcObject.Manager.Visit | Ad_Rp/src/AdaptiveReplacementCacheManager.java:80-145 | the object acts as specified and keeps the invariants |
| ArcObject.Manager.OnMiss | Ad_Rp/src/AdaptiveReplacementCacheManager.java:80-104 | cases IV.i and IV.ii act as specified |
| ArcObject.Manager.OnHit | Ad_Rp/src/AdaptiveReplacementCacheManager.java:122-145 | cases I to III act as specified |
| ArcObject.Manager.FreeRoom | Ad_Rp/src/AdaptiveReplacementCacheManager.java:106-119 | the replacement acts as specified; ArcSides.VisitSide says which side it takes from |
| ArcJcs.PutKeeps | Adaptive_Replacement/src/ARCsource.java:190-324 | a put keeps map, lists and elements consistent and the bounds max for T1 and B1, max + 1 for T1 and T2, 2 max + 1 for all; it exceeds the documented bounds exactly in the stated cases |
| ArcJcs.GetKeeps | Adaptive_Replacement/src/ARCsource.java:199-241 | a get keeps all of it and exceeds nothing |
| ArcJcs.RemoveKeeps | Adaptive_Replacement/src/ARCsource.java:595-619 | a removal keeps all of it |
| ArcJcs.ReplaceSizes | Adaptive_Replacement/src/ARCsource.java:498-587 | a replacement moves at most one key to the ghosts of its side, and declines exactly when T1 is below its target and there are not too many residents |
| ArcJcsSides.TargetMoves | Adaptive_Replacement/src/ARCsource.java:377-464 | the target after a put or a get, exactly: up for a key on B1 and down for one on B2, by the ratio of the other list of ghosts to this one, at least 1, or to its bound; unchanged otherwise, and by a removal |
| ArcJcsSides.PutGives | Adaptive_Replacement/src/ARCsource.java:243-587 | how many keys T1 and T2 lose to the ghosts when room is made for a put: T1 gives way if it has reached the target after the put (at least 1), else T2 if there are too many residents; a hit on B2 makes room twice |
| ArcJcsSides.PutShifts | Adaptive_Replacement/src/ARCsource.java:243-464 | what a put does to the sides, ghosts before residents: the key goes to the new end of the right side, or of the left side if it was nowhere; then the oldest key of the left side is forgotten if that is full, or else the oldest of B2 if the directory is full, and no other; so what T1 or T2 gives up is its oldest key |
| ArcJcsSides.GetShifts | Adaptive_Replacement/src/ARCsource.java:199-228 | a get moves a resident as a put does, and leaves the lists alone otherwise |
| ArcJcsSides.PutOthers | Adaptive_Replacement/src/ARCsource.java:243-464 | a put changes the element of no other key, and brings none in |
| ArcJcsOrder.RunOrdered | Adaptive_Replacement/src/ARCsource.java:157-182 | in every run B1 then T1 and B2 then T2 are in the order of the last access, where a get of a ghost is none, and every element is the one put when its key was last put while it was not resident |
| ArcJcsOrder.GetReturns | Adaptive_Replacement/src/ARCsource.java:122-137 | in every run a get returns the element put when the key was last put while it was not resident, if the key is resident, and nothing otherwise |
| ArcJcsOrder.GhostsAreOlder | Adaptive_Replacement/src/ARCsource.java:488-587 | every resident is more recent than every ghost of its side |
| ArcJcsRuns.RunKeeps | Adaptive_Replacement/src/ARCsource.java:190-324 | in every run the map indexes exactly the four lists, elements are null exactly on B1 and B2, and the bounds hold |
| ArcJcsRuns.DocumentedBoundsFail | Adaptive_Replacement/src/ARCsource.java:174-177 | five operations on a cache for one element lead to two residents and three keys |
| ArcJcsRuns.GetAfterPut | Adaptive_Replacement/src/ARCsource.java:199-228 | a get right after a put returns what was put if and only if the key was not resident or had this element already |
| ArcJcsRuns.MemoryCache.Access | Adaptive_Replacement/src/ARCsource.java:190-324 | the object acts as specified for puts and gets; ArcJcsSides.TargetMoves, PutShifts and PutGives say what that does |
| ArcJcsRuns.MemoryCache.Remove | Adaptive_Replacement/src/ARCsource.java:595-619 | the object forgets exactly the key, as specified |
| ArcJcsRuns.MemoryCache.Replace | Adaptive_Replacement/src/ARCsource.java:498-587 | the object acts as specified |
| ArcJcsRuns.MemoryCache.FoundInB1 | Adaptive_Replacement/src/ARCsource.java:377-405 | the object acts as specified: the target rises as ArcJcsSides.TargetMoves says |
| ArcJcsRuns.MemoryCache.FoundInB2 | Adaptive_Replacement/src/ARCsource.java:425-454 | the object acts as specified, second replacement included |
| Codec.DecoderBase.GetBuffer | zmq/zeromq-4.1.5/src/decoder.hpp:78-96 | zero-copy exactly when a whole buffer is to be read |
| Codec.DecoderBase.RunSteps | zmq/zeromq-4.1.5/src/decoder.hpp:118-122 | steps run until bytes are needed or a step returns to the caller, and the code tells which |
| Codec.DecoderBase.Decode | zmq/zeromq-4.1.5/src/decoder.hpp:104-143 | both paths lead to the state and the steps of the bytes used taken one by one; all bytes are used unless a message is complete or the stream is dead |
| Codec.DecoderBase.Receive | zmq/zeromq-4.1.5/src/decoder.hpp:78-143 | a stream received in any pieces, by either path, is the stream byte by byte |
| Codec.FragmentationIndependence | zmq/zeromq-4.1.5/src/decoder.hpp:104-143 | streams with the same bytes lead to the same steps, stored bytes and results, however they are cut |
| Codec.FeedCompletes | zmq/zeromq-4.1.5/src/decoder.hpp:126-140 | a chunk copied at once is the same as its bytes one by one |
| Encoding.EncoderBase.LoadMsg | zmq/zeromq-4.1.5/src/encoder.hpp:133-138 | the bytes to come are the chunks of the message |
| Encoding.EncoderBase.Encode | zmq/zeromq-4.1.5/src/encoder.hpp:77-131 | a batch is the next bytes of the message in progress, whatever the buffer; a batch short of the buffer ends the message |
| Encoding.EncoderBase.Transmit | zmq/zeromq-4.1.5/src/encoder.hpp:77-138 | for all positive buffer sizes the batches concatenate to the chunks of the messages |
| V2Codec.FromToBytes | zmq/zeromq-4.1.5/src/wire.hpp:81-104 | a 64-bit size is read back from the bytes it was written as |
| V2Codec.WireIs | zmq/zeromq-4.1.5/src/v2_encoder.cpp:46-77 | a frame on the wire, byte by byte: MORE, LARGE and COMMAND are bits 0, 1 and 2 of the first byte and the others are zero; the size follows in one byte, or for more than 255 in eight with weights from 256 to the 7 down to 1; then the body |
| V2Codec.ReservedBitsIgnored | zmq/zeromq-4.1.5/src/v2_decoder.cpp:62-79 | the other five bits of the flags are ignored on reception |
| V2Codec.FrameDecodes | zmq/zeromq-4.1.5/src/v2_decoder.cpp:62-152 | a frame is decoded to itself if it is within the size limit, and is an error otherwise |
| V2Codec.EncodesWireAll | zmq/zeromq-4.1.5/src/v2_encoder.cpp:46-77 | the encoder's steps produce the frames on the wire |
| V2Codec.FramesDecode | zmq/zeromq-4.1.5/src/v2_decoder.cpp:62-152 | of a sequence of frames those before the first too large one come out, in order |
| V2Codec.RoundTrip | zmq/zeromq-4.1.5/src/v2_encoder.cpp:46-77 | through both objects: frames encoded in batches of any sizes, cut anew anywhere and received with any buffer come out exactly as they went in, if and only if all are within the size limit; otherwise those before the first that is not |

## Left out

- Conflating pipes (ypipe_conflate.hpp), and `set_hwms` on a pipe in use.
- PipeFlow.RunInv: excludes hiccup, because process_hiccup throws the old queue and what is in it away; the safety theorems of PipeSafety include it.
- PipeObject.Pipe.Hiccup: creating and freeing queue memory is not tracked; queues are values.
- PipeObject.Pipe.ProcessPipeTermAck: what the event sink does when told of the termination is not modelled, and it is taken not to call back into the pipe.
- Widths of counters: message counts and sequence numbers are unbounded (sent_seqnum has 32 bits in the program, processed_seqnum 64).
- OwnSafety.ShutdownCompletes: linger values and process_destroy of subclasses are not modelled.
- YPipes.YPipe.Flush: the failed compare-and-swap and the store that follows are one step here; Mailboxes.RunInv has them as two.
- Mtrie.Add: trie nodes are values, so that update in place, allocation and freeing of nodes and tables are not captured; the tables' contents, window and counters are.
- MtriePipe.Rm: the callback is taken not to change the trie.
- DistObject.Content.Close: the reference to message metadata that close drops is left out; so are msg_t::move and copy, which the distributor does not use.
- DistObject.Distributor.Distribute: messages other than long ones have no content object; their inline bytes are copied.
- RoundRobin.PartsTogether: does not hold across removal of a pipe in mid-message; RoundRobin.RemovalKeepsCurrent says when.
- Xpub.Publisher.Send: reading subscriptions from pipes, verbose mode and the pending queue of upstream messages are not modelled.
- ArcObject.Manager.Visit: listeners that call back into the cache during an eviction (as SimpleCache.java does) are excluded; logging is left out.
- ArcJcsRuns.MemoryCache.Access: statistics, logging, spooling of evicted elements and concurrent callers are left out.
- Codec.DecoderBase.Decode: a step that runs out of memory, and the test whether the caller's buffer is the machine's own by comparing addresses, which is a flag here.
- The version 1 and raw framings, which would only add easier members.
- Sockets, pollers, I/O threads, context and reaper, security mechanisms, options and addresses, pgm and norm engines.
- The simulators of LRU, LFU and set-associative caches, the cache2k variant and the example programs.
