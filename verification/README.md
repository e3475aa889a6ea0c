# libzmq in Dafny

Models of the stateful cores of libzmq and proofs about them. `dafny verify dfyconfig.toml` checks everything.

Each core has a specification made of functions on values, classes or methods that follow the code and are proved
equal to that specification, and theorems about every run of the specification.

| modules | what they model |
|---|---|
| `OwnModel`, `OwnInvariant`, `OwnSteps`, `OwnTheorems`, `OwnDrain`, `OwnEarlyRequest`, `OwnShutdown`, `OwnObject`, `OwnSystem` | the ownership tree and its shutdown protocol: objects, one mailbox per object, all interleavings of all threads |
| `Inproc`, `InprocInvariant`, `InprocTheorems`, `InprocProgress`, `InprocBinding`, `InprocObject` | the inproc rendezvous of connectors and binders and the sequence numbers it takes |
| `Mtrie`, `MtrieBulk`, `MtrieTheorems` | the multi-trie of subscriptions |
| `PipeArray`, `Dist`, `DistRuns`, `DistStreams` | the self-indexing array and the distributor with its three nested regions |
| `MsgRefs`, `MsgSystem`, `MsgObjects` | message contents, receive buffers and their two levels of reference counts |
| `Lb`, `LbRuns`, `LbFair`, `Fq`, `FqRuns`, `FqFair` | the load balancer and the fair queue |
| `Decoder`, `Encoder`, `V1Codec`, `V1Language`, `WireFormat` | the stream codecs and the framing that PGM uses |
| `PgmSender`, `PgmReceiver`, `PgmTheorems`, `PgmRuns` | PGM packets, first-message offsets, joining a stream late and losses |
| `Metadata`, `MetadataTheorems`, `MetadataObject` | handshake metadata, the `metadata` and `property` rules of ZMTP 3.0 (ZeroMQ RFC 23, section "Formal Grammar") |

Reading guide for the main results:

- **Shutdown.** `OwnTheorems.ShutdownSafety`, `ExactlyOnePhase` and `NoStuckShutdown` hold in every reachable world;
  `OwnShutdown.TerminateEnds` leads from a call of `terminate` to the destruction of the object and all it owns;
  `OwnDrain.ShutdownHappens` gives a bounded run that completes a shutdown, and `ShutdownCompletes` bounds all of them.
  `OwnSystem.Operate` ties the objects and mailboxes to these worlds. That every termination request is honoured is
  false: `OwnEarlyRequest.EarlyRequestIsLost` is a schedule in which one is ignored, and `HonouredIffLaunched` and
  `RequestHonouredIff` say exactly when a request takes effect, at the call and at its delivery.
- **Rendezvous.** `InprocTheorems.NoConnectionLost`, `JoinedAtMostOnce`, `SeqnumsArePaid` and `DestroyedIsForgotten`
  hold in every reachable registry, and `InprocProgress.ComesToRest` shows that every run can be completed.
  `InprocBinding.BoundOnce` and `FoundIsJoined` say who an address leads to.
- **Subscriptions.** `MtrieTheorems.RunAll` is the refinement of a plain map by the trie over all sequences of
  operations; `Canonical` makes the trie a function of its contents.
- **Distribution and references.** `DistRuns.OnlyWholePrefixes`, `LateComersGetNothing` and `JoinersBecomeActive` are
  about whole runs, and `DistStreams.StreamsExact` says exactly what each pipe is given in them; `MsgSystem.ExactLifetimes` says that contents and buffers are freed exactly once, exactly when
  unused.
- **Schedulers.** `LbFair.NoStarvation`, `Fq.NoStarvation` and `FqFair.ServedInTurn` bound the wait of a pipe, counted
  on what is flushed and delivered. Atomicity of multipart messages is
  `LbRuns.ArrayFlushedIsWhole` for sending and `FqRuns.DeliveredAtomically` for receiving. Sending fails for
  terminations that `Lb.Misdirects` names and for a last frame that was refused and is sent again by a non-blocking
  caller, receiving for terminations that `FqRuns.Breaks` names; `LbRuns.MisdirectingShows`, `ReofferingShows` and
  `FqRuns.BreakingShows` prove that these always do harm, and `MisdirectedRun`, `ReofferedRun`, `BrokenRun` and
  `AbortedRun` reach them. The assertion of `recvpipe` holds in all other runs.
- **Codecs.** `Decoder.ReceiveStream` and `Encoder.Drain` make decoding and encoding independent of buffer sizes and of
  copying; `V1Language.DecodesAsRead` fixes what every stream of bytes decodes to; `PgmRuns.LossyReceiver` and `LateJoiner` say from end to end what a session is given with any losses and
  with a late join, up to a payload capacity of 0x10000 bytes; above it the sender writes offsets that name no
  beginning (`PgmSender.WideBufferMisplacesStart`). `MetadataTheorems.AcceptedLanguage` is the exact language that
  `parse_metadata` accepts, which is wider than the grammar of RFC 23, and `MetadataObject.Handshake` is what one
  socket learns from another.

## Model

| member | source | states |
|---|---|---|
| OwnObject.OwnT.CheckTermAcks | src/own.cpp:192-207 | the object is destroyed, its owner told, exactly when it is terminating, its sequence numbers agree and no acknowledgement is missing |
| OwnObject.OwnT.ProcessSeqnum | src/own.cpp:72-79 | the object after a counted command is the specification's, including a destruction it triggers |
| OwnObject.OwnT.ProcessOwn | src/own.cpp:118-130 | a child that arrives during termination is asked to terminate and awaited, otherwise it is owned |
| OwnObject.OwnT.ProcessTermReq | src/own.cpp:98-116 | only an owned child of an owner that is not terminating is asked to terminate and awaited |
| OwnObject.OwnT.ProcessTerm | src/own.cpp:155-171 | the loop asks every owned child once, awaits as many acknowledgements and leaves none owned |
| OwnObject.OwnT.UnregisterTermAck | src/own.cpp:178-190 | one acknowledgement fewer is awaited, and the object may be destroyed by it |
| OwnObject.OwnT.Terminate | src/own.cpp:132-148 | a root terminates itself, any other object asks its owner, a terminating object does nothing |
| OwnObject.OwnT.IncSeqnum | src/own.cpp:66-70 | the number of commands announced to the object grows by one and nothing else changes |
| OwnObject.OwnT.ProcessCommand | src/object.cpp:71-168 | each command reaches its handler, and exactly the counted ones are followed by process_seqnum |
| OwnSystem.SystemT.Deliver | src/object.cpp:71-168 | delivering the head of a mailbox to its object, and posting what the handler sends, is the step of the transition system |
| OwnSystem.SystemT.Perform | src/own.cpp:66-207 | every step of the transition system is what the objects, their mailboxes and the calls from outside do together |
| OwnSystem.Operate | src/own.cpp:66-212 | whatever the threads do, the objects and mailboxes are in a reachable world after it and no assertion has failed |
| OwnInvariant.NothingOutstanding | src/own.cpp:192-207 | when the guard of check_term_acks holds, no live object names this one as owner and nothing is in flight to it or owed to it |
| OwnTheorems.StepKeepsInv | src/own.cpp:66-212 | every step of every thread keeps the invariant that accounts for commands, acknowledgements, owners and phases |
| OwnTheorems.ReachableInv | src/own.cpp:66-212 | the invariant holds in every world that any interleaving reaches |
| OwnTheorems.ShutdownSafety | src/own.cpp:66-212 | no assertion fires, no command meets a destroyed object, and a destroyed object has no live child and nothing addressed to it |
| OwnTheorems.ExactlyOnePhase | src/own.cpp:81-207 | a live child is in exactly one phase: launched, own command in flight, owned, asked, or terminating; the owner's acknowledgement count is exactly what it waits for |
| OwnTheorems.TermMeetsLiveObject | src/own.cpp:155-159 | a term command never reaches an object that is already terminating |
| OwnTheorems.NoLiveTerminating | src/own.cpp:192-207 | when nothing is outstanding, no live object is still terminating |
| OwnTheorems.DeadOwnerDeadTree | src/own.cpp:192-212 | when an object is destroyed, all its descendants were destroyed before |
| OwnTheorems.NoStuckShutdown | src/own.cpp:72-207 | once nothing is outstanding, a terminating object and every descendant have been destroyed |
| OwnTheorems.ReachableOlderOwners | src/own.cpp:81-91 | owners are older than what they own, so the ownership relation is a forest |
| OwnTheorems.CounterIsExactBelowWrap | src/own.hpp:129 | the 32-bit count of announced commands and the 64-bit count of processed ones agree only when they should, if and only if fewer than 2^32 commands were announced |
| OwnDrain.DrainLowers | src/own.cpp:72-207 | with no new launches every delivery strictly lowers a measure of the world |
| OwnDrain.DrainRunBound | src/own.cpp:72-207 | a run of deliveries is no longer than the measure of the world it starts in |
| OwnDrain.ShutdownCompletes | src/own.cpp:72-212 | deliveries end within a bounded number of steps, and then every terminating object and everything it owns is destroyed |
| OwnDrain.DrainCompletes | src/own.cpp:72-212 | from every world of the invariant in which the owner of every half-done launch can still count its command, draining steps lead, within the bound, to one in which none is left |
| OwnDrain.ShutdownHappens | src/own.cpp:72-212 | from every reachable world in which the owner of every half-done launch can still count its command, there is a bounded run after which nothing is outstanding, and whatever was terminating, with all its descendants, is destroyed |
| OwnEarlyRequest.EarlyRequestIsLost | src/own.cpp:81-116 | a schedule in which a child's request is ignored and both objects stay alive with nothing in flight |
| OwnEarlyRequest.RequestHonouredIff | src/own.cpp:98-116 | delivering a request leaves the child asked or terminating if and only if its own command is not behind the request in the owner's mailbox |
| OwnEarlyRequest.HonouredIffLaunched | src/own.cpp:81-148 | a request made by terminate leaves the child asked or terminating when it is delivered if and only if, at the call, the owner is not between the plug and the own command of launching that child |
| OwnShutdown.TerminateEnds | src/own.cpp:132-212 | an object that calls terminate, a root or one that its owner is not launching at that moment, is destroyed with all its descendants by a bounded run of the steps that finish what was begun |
| OwnShutdown.LingerIsPassedOn | src/own.cpp:132-171 | a root that terminates tells everything it owns its own linger period, and an object that is told passes on the period it was told |
| OwnShutdown.LingerOfOneChild | src/own.cpp:98-130 | a child whose request is honoured is told its owner's period, and one launched too late is told zero |
| InprocObject.CtxT.Register | src/ctx.cpp:688-701 | an address is bound once; a second binding fails and changes nothing |
| InprocObject.CtxT.Unregister | src/ctx.cpp:703-718 | succeeds exactly for the socket that bound the address, and removes that address only |
| InprocObject.CtxT.UnregisterEndpoints | src/ctx.cpp:720-736 | the loop removes all addresses of the socket and no other |
| InprocObject.CtxT.Find | src/ctx.cpp:738-757 | a peer that is found has a sequence number taken for it; a missing one is reported |
| InprocObject.CtxT.Pend | src/ctx.cpp:759-779 | the connection waits with a sequence number taken for the connector, or is sent to a binder that came in the meantime with one taken for the binder |
| InprocObject.CtxT.ConnectAll | src/ctx.cpp:781-795 | the loop joins every connection waiting for the address and leaves the others |
| InprocObject.CtxT.ConnectInprocSockets | src/ctx.cpp:797-851 | one sequence number of the binder is taken and paid, at once on the bind side and by a bind command on the connect side |
| InprocObject.CtxT.ProcessCommand | src/object.cpp:101-162 | a bind command joins its connection, and both commands pay one sequence number |
| InprocObject.CtxT.Perform | src/ctx.cpp:688-851 | every step of the transition system is a call of the registry or a command it delivers |
| InprocObject.Operate | src/ctx.cpp:688-851 | whatever the threads do, call by call, the registry is in a reachable state after it |
| InprocTheorems.StepKeepsInv | src/ctx.cpp:688-851 | every step of connectors, binders, closing sockets and deliveries keeps connections unique and sequence numbers accounted for |
| InprocTheorems.ReachableInv | src/ctx.cpp:688-851 | the invariant holds in every registry that any interleaving reaches |
| InprocTheorems.JoinedAtMostOnce | src/ctx.cpp:738-851 | a connection is never joined twice, and only by a socket that bound its address |
| InprocTheorems.NoConnectionLost | src/ctx.cpp:738-851 | when all calls and commands are done, a connection is joined exactly once, or waits exactly once for an address that nobody has bound |
| InprocTheorems.SeqnumsArePaid | src/object.cpp:101-162 | when all calls and commands are done, the sequence numbers still open are exactly the socket's own waiting connections |
| InprocTheorems.DestroyedIsForgotten | src/ctx.cpp:738-757 | no endpoint, command, pending connection or thread about to send a bind command refers to a destroyed socket |
| InprocProgress.ContinuingLowersWork | src/ctx.cpp:759-851 | finishing a call or delivering a command strictly lowers a measure |
| InprocProgress.UnquietContinues | src/ctx.cpp:738-851 | while a call or a command is under way, one of them can go on |
| InprocProgress.ComesToRest | src/ctx.cpp:738-851 | every run extends, by steps of what is under way and within a bound, to one in which all is done |
| InprocBinding.BindingStep | src/ctx.cpp:688-736 | an address that leads nowhere is bound by registering it, and leads to its binder until that socket unregisters it or closes |
| InprocBinding.SecondBindFails | src/ctx.cpp:688-701 | registering an address that is in use changes nothing |
| InprocBinding.BoundOnce | src/ctx.cpp:688-736 | in every run an address leads to the socket that bound it, from the bind until that socket gives it up, and everyone else's bind fails |
| InprocBinding.FoundIsJoined | src/ctx.cpp:738-757 | a connection to a bound address ends up with the socket that had bound it when it was looked up, whatever happens in between |
| InprocBinding.BindJoinsWaiting | src/ctx.cpp:781-795 | everything that waits for an address is joined by the socket that binds it |
| Mtrie.Add | src/generic_mtrie_impl.hpp:75-149 | the subscriber is added at the key and nowhere else, the trie stays canonical, and the result says whether the key had no subscriber |
| Mtrie.Extend | src/generic_mtrie_impl.hpp:92-133 | the table makes room for a byte below or above its range without changing any child |
| Mtrie.Rm | src/generic_mtrie_impl.hpp:324-421 | the subscriber is removed at the key and nowhere else, the trie stays canonical, and the answer is that it was not there, that it was the last one, or that others remain |
| Mtrie.Prune | src/generic_mtrie_impl.hpp:350-418 | a redundant child is dropped, the others stay, and the node is compacted to a canonical one |
| Mtrie.Compact | src/generic_mtrie_impl.hpp:362-414 | a table with null ends or a single child takes its tightest form with the same children |
| MtrieBulk.RmHelper | src/generic_mtrie_impl.hpp:166-222 | the subscriber leaves the whole subtree, the callback sees the exact paths of the affected prefixes in order, and the buffer is never shorter than the size passed by value |
| MtrieBulk.RmMultiple | src/generic_mtrie_impl.hpp:224-316 | the same for the children of a table, which is then shrunk to its tightest form |
| MtrieBulk.SweepTable | src/generic_mtrie_impl.hpp:231-266 | the loop sweeps every entry, counts the children that remain and finds the first and last of them |
| MtrieBulk.Shrink | src/generic_mtrie_impl.hpp:268-315 | none, one, fewer or all children remaining give a canonical node with exactly those children |
| MtrieTheorems.RmValue | src/generic_mtrie_impl.hpp:152-164 | the subscriber is removed from every prefix and nothing else, and the callback runs once for each affected prefix, in lexicographic order |
| MtrieTheorems.HitsExact | src/generic_mtrie_impl.hpp:166-316 | the prefixes reported are exactly those that had the subscriber, or had only it when only emptied ones are wanted |
| MtrieTheorems.HitsOrdered | src/generic_mtrie_impl.hpp:166-316 | the prefixes reported are in strict lexicographic order, hence each once |
| MtrieTheorems.Match | src/generic_mtrie_impl.hpp:423-463 | the loop calls back once per pair of a prefix of the data and a subscriber of it, and for nothing else |
| MtrieTheorems.Canonical | src/generic_mtrie_impl.hpp:92-148 | two tries with equal contents are equal, but for the stale minimum of childless nodes |
| MtrieTheorems.Perform | src/generic_mtrie_impl.hpp:75-463 | each operation has the effect and the answer it has on the map from byte strings to sets |
| MtrieTheorems.RunAll | src/generic_mtrie_impl.hpp:75-463 | over all sequences of operations the answers are the map's, and the trie reached is the only one with those contents |
| PipeArray.ArrayT.Index | src/array.hpp:126-130 | the stored index of an item is its position |
| PipeArray.ArrayT.PushBack | src/array.hpp:89-95 | the item is appended and every item still knows its position |
| PipeArray.ArrayT.Swap | src/array.hpp:113-122 | two items change places and every item still knows its position, also when they are the same |
| PipeArray.ArrayT.Erase | src/array.hpp:97-111 | the item is removed, the last one takes its place, and every item left knows its position |
| PipeArray.SwapOut | src/array.hpp:113-122 | swapping an item to the end of a region takes exactly it out of the shortened region and leaves the other regions as sets |
| PipeArray.SwapIn | src/array.hpp:113-122 | swapping an item to just behind a region puts exactly it into the lengthened region and leaves the other regions as sets |
| Dist.OperationsKeepView | src/dist.cpp:50-160 | every operation keeps matching within active within eligible within all, and active equal to eligible between messages |
| Dist.DistT.Attach | src/dist.cpp:50-65 | as sets, the pipe becomes eligible, and active when no message is being sent |
| Dist.DistT.Match | src/dist.cpp:67-80 | as sets, an eligible pipe becomes matching and nothing else changes, if and only if the pipe is active or not eligible, which is always so between messages |
| Dist.DistT.ReverseMatch | src/dist.cpp:82-96 | the loop of swaps makes the matching pipes exactly the eligible ones that were not matching, and keeps the regions nested and the active pipes if and only if every eligible pipe is active, which is always so between messages |
| Dist.DistT.Unmatch | src/dist.cpp:98-101 | no pipe is matching and nothing else changes |
| Dist.DistT.PipeTerminated | src/dist.cpp:103-121 | as sets, exactly this pipe leaves all regions |
| Dist.DistT.Activate | src/dist.cpp:123-137 | as sets, a passive pipe becomes eligible, and active when no message is being sent |
| Dist.DistT.Write | src/dist.cpp:216-230 | a refused write removes exactly that pipe from all three regions and leaves the pipes before it in place |
| Dist.DistT.Distribute | src/dist.cpp:162-209 | exactly the matching pipes that do not refuse get the frame, once each, and the references given back are those nobody took |
| Dist.DistT.SendToMatching | src/dist.cpp:145-160 | the same, and after the last frame every eligible pipe is active |
| Dist.DistT.SendToAll | src/dist.cpp:139-143 | exactly the active pipes that do not refuse get the frame |
| Dist.DistT.CheckHwm | src/dist.cpp:232-239 | the loop answers whether every matching pipe has room |
| DistRuns.RunKeepsOk | src/dist.cpp:50-160 | in every run the streams of the receiving pipes end with the frames of the current message |
| DistRuns.OnlyWholePrefixes | src/dist.cpp:145-230 | in every run a pipe that holds a frame of a message holds all earlier frames of it, in order and next to each other |
| DistRuns.LateComersGetNothing | src/dist.cpp:50-65 | a pipe that is not among the receivers at some point within a message gets nothing more of that message |
| DistRuns.JoinersBecomeActive | src/dist.cpp:50-160 | a pipe attached or activated in the middle of a message that does not go away is active in the first state after that message, whatever happens in between |
| DistStreams.StreamsExact | src/dist.cpp:50-230 | in every run each pipe is given exactly the frames that a small automaton of that pipe alone says: those that address it while it takes part, until it refuses one or goes away |
| DistStreams.JoinerIsGivenAll | src/dist.cpp:50-65 | a pipe attached or activated between messages that stays and does not refuse is given the first frame of every message to all |
| DistStreams.MatchedIsGiven | src/dist.cpp:67-80 | such a pipe, once matched, is given every frame sent to the matching pipes |
| DistStreams.UnmatchedIsNotGiven | src/dist.cpp:98-101 | a pipe that is not matched again after all were unmatched is given no frame sent to the matching pipes |
| DistStreams.ReverseTurnsRound | src/dist.cpp:82-96 | after reversing the match a pipe that takes part is given the frame if and only if it was not matched |
| DistRuns.DistributeConserves | src/dist.cpp:162-209 | distributing keeps every reference count exact, with the sender's handle replaced by one handle per accepting pipe |
| DistRuns.DistributeCounts | src/dist.cpp:162-209 | the number of handles changes by the accepting pipes minus one, and the content is freed exactly when that leaves none |
| MsgObjects.MsgT.Init | src/msg.cpp:76-85 | the message is an empty one without content |
| MsgObjects.MsgT.Close | src/msg.cpp:215-266 | a handle is given back, the content freed when it was the last, and the message is no longer valid |
| MsgObjects.MsgT.Move | src/msg.cpp:268-287 | the source's content passes to this message without any change of counts, after this message's own is closed |
| MsgObjects.MsgT.Copy | src/msg.cpp:289-322 | both messages hold the content, which is shared and counted once more |
| MsgObjects.MsgT.AddRefs | src/msg.cpp:489-510 | the content becomes shared with so many references more |
| MsgObjects.MsgT.RmRefs | src/msg.cpp:512-554 | so many references fewer; an unshared message is closed as a whole, a shared one keeps its value; the answer says whether the content is still there |
| MsgObjects.Allocator.Allocate | src/decoder_allocators.cpp:60-99 | the buffer held is used again when no message lives in it, otherwise it is released and a fresh one obtained |
| MsgObjects.Allocator.Place | src/v2_decoder.cpp:119-138 | a body in the buffer that is not copied takes the next content slot, which lies within those that were allocated |
| MsgObjects.Allocator.Deallocate | src/decoder_allocators.cpp:101-108 | the allocator's own reference is given back, and the buffer freed when it was the last |
| MsgRefs.DropHandles | src/msg.cpp:215-266 | taking away some handles of a content and as many references keeps contents and buffers exact |
| MsgRefs.ShareHandles | src/msg.cpp:289-322 | adding handles to a content and as many references keeps contents and buffers exact |
| MsgRefs.RefsCancel | src/msg.cpp:489-554 | references added and removed again leave the counter as it was, and adding or removing none changes nothing |
| MsgSystem.StepKeepsOk | src/msg.cpp:55-554 | init, close, move, copy, adding and removing references, allocate and deallocate keep both levels of counts exact |
| MsgSystem.ExactLifetimes | src/decoder_allocators.cpp:35-140 | in every run no freed memory is touched; contents and buffers exist exactly while used and are freed exactly once; a buffer's counter is the allocator's reference plus its live contents |
| MsgSystem.ReuseOnlyWhenUnused | src/decoder_allocators.cpp:60-99 | allocate hands out the old buffer again if and only if no message refers to it |
| MsgSystem.SlotsSuffice | src/decoder_allocators.cpp:35-43 | disjoint bodies that are too long for a very small message never need more content slots than the buffer has |
| Lb.OperationsKeepView | src/lb.cpp:45-158 | every operation keeps the holder of an unfinished message active, and there is none while dropping |
| Lb.LbT.Attach | src/lb.cpp:45-49 | the array is the specified one, in which the pipe is the last active one and the current pipe stays current |
| Lb.PutNewView | src/lb.cpp:45-49 | as sets, attaching makes exactly this pipe active |
| Lb.LbT.Activate | src/lb.cpp:71-76 | the array is the specified one, in which the pipe is the last active one and the current pipe stays current |
| Lb.PutActiveView | src/lb.cpp:71-76 | as sets, activating makes exactly this pipe active |
| Lb.LbT.PipeTerminated | src/lb.cpp:51-69 | the array is the specified one: the last active pipe takes the place of an active one that goes, and the current position is reset when it is no longer active |
| Lb.RemovedView | src/lb.cpp:51-69 | exactly this pipe goes, and the rest of a message it held is dropped; another pipe's message goes astray if and only if the position misdirects |
| Lb.LbT.SendPipe | src/lb.cpp:83-158 | the loop tries the pipes in the specified order, and the array and the outcome are the specified ones |
| Lb.SendView | src/lb.cpp:83-158 | a frame within a message goes to its holder, or is dropped with the rest of the message when the holder refuses; a first frame goes to an active pipe that does not refuse, and only pipes that refuse become passive |
| Lb.LbT.HasOut | src/lb.cpp:160-180 | true exactly when a message is unfinished or a pipe is left active after the full ones before it are made passive |
| Lb.SkippedFinds | src/lb.cpp:160-180 | a pipe is left active exactly when some active pipe has room |
| LbRuns.RunKeepsOk | src/lb.cpp:45-158 | in every run in which no termination misdirects and no refused last frame is sent again without blocking, what is unflushed on a pipe is the beginning of the current message, on its holder only |
| LbRuns.FlushedIsWhole | src/lb.cpp:83-158 | in every such run, what is flushed to a pipe is a sequence of whole messages |
| LbRuns.MisdirectionBreaksAtomicity | src/lb.cpp:62-67 | after any misdirecting termination, sending the last frame flushes an incomplete message |
| LbRuns.ReofferingBreaksAtomicity | src/socket_base.cpp:1188-1208 | whenever a refused last frame is sent again without blocking and a pipe takes it, an incomplete message is flushed |
| LbRuns.ActKeepsOk | src/lb.cpp:45-180 | every step of the array that neither misdirects nor sends a refused last frame again keeps the unfinished message on its holder |
| LbRuns.ArrayFlushedIsWhole | src/lb.cpp:45-180 | in every run of the array in which no step does either, what is flushed to a pipe is a sequence of whole messages |
| LbRuns.ReofferingShows | src/socket_base.cpp:1188-1208 | in the array too, a refused last frame that is sent again and taken is flushed as an incomplete message |
| LbRuns.StrandedBy | src/lb.cpp:83-158 | a caller is left with a last frame to send again only by a non-blocking send of a last frame that its holder refuses |
| LbRuns.ReofferedRun | src/socket_base.cpp:1188-1208 | a run of the array from the empty balancer without any termination, in which a refused last frame is sent again, ends with an incomplete message flushed |
| LbRuns.MisdirectingShows | src/lb.cpp:51-69 | after any termination that misdirects, the last frame of the message is flushed to the first pipe, which has no beginning of it |
| LbRuns.MisdirectedRun | src/lb.cpp:51-69 | a run of the array from the empty balancer with one termination, which misdirects, ends with an incomplete message flushed |
| LbFair.NoStarvation | src/lb.cpp:45-180 | while an active pipe that takes frames is flushed nothing, the messages flushed to others are at most its distance plus the pipes that joined plus the setbacks by terminations |
| LbFair.JoinerIsServed | src/lb.cpp:45-180 | from joining on, the messages flushed to others before a pipe that takes frames gets one are at most the pipes that were active plus those delays |
| LbFair.ServedGoesLast | src/lb.cpp:83-158 | the pipe that takes a last frame is the last of the round from then on; a frame that is dropped or refused in mid-message leaves the round as it is |
| LbFair.FirstFrameIsTaken | src/lb.cpp:83-158 | between messages a frame is taken whenever some active pipe would take it, by a pipe that would |
| LbFair.NextFrameIsTaken | src/lb.cpp:83-158 | in the middle of a message its pipe takes the frame, or refuses and keeps nothing of the message |
| LbFair.LastFrameEnds | src/lb.cpp:83-158 | after a last frame the balancer is between messages, even when the message was dropped |
| Fq.FqT.Attach | src/fq.cpp:45-50 | the pipe joins the active ones and the current pipe stays current |
| Fq.FqT.Activate | src/fq.cpp:71-76 | the pipe joins the active ones and the current pipe stays current |
| Fq.FqT.PipeTerminated | src/fq.cpp:52-69 | the array is the specified one: the last active pipe takes the place of an active one that goes, the current position is reset when it is no longer active, and the last pipe read is forgotten when it goes |
| Fq.FqT.RecvPipe | src/fq.cpp:83-126 | the loop skips exactly the pipes without a message and reads from the first with one; the current pipe moves on only after a last frame; the assertion fails exactly when in the middle of a message the pipe under the current position has nothing to read |
| Fq.FqT.HasIn | src/fq.cpp:128-150 | true exactly when a message is unfinished or a pipe is left active after those without a message before it are made passive |
| Fq.SkipFindsReady | src/fq.cpp:83-150 | a message is found exactly when some active pipe has one, and the pipes made passive on the way are those without one |
| Fq.DeactivateDistance | src/fq.cpp:83-150 | making the current pipe passive takes no other pipe further away |
| Fq.ReceiveDistance | src/fq.cpp:83-126 | reading a last frame brings every other active pipe one closer, and reading any frame takes none further away |
| Fq.JoinDistance | src/fq.cpp:45-76 | a pipe that joins takes at most one place before another |
| Fq.TerminateDistance | src/fq.cpp:52-69 | a termination takes no waiting pipe further away but the last active one, and that by at most the position of the pipe that went |
| Fq.NoStarvation | src/fq.cpp:45-150 | while a pipe waits, the whole messages read from others are at most its distance plus the pipes that joined plus the setbacks by terminations |
| FqRuns.KeepsReader | src/fq.cpp:45-150 | in the middle of a message, what happens between reads keeps the pipe under the current position if and only if it is not a breaking termination: of that pipe, or of one between the first and that pipe when that pipe is the last active one |
| FqRuns.DeliveredAtomically | src/fq.cpp:45-150 | in every run without a breaking termination, of pipes that have the rest of a message once its first frame is read, all messages are delivered whole, each from one pipe, and the assertion of recvpipe does not fail |
| FqRuns.BreakingShows | src/fq.cpp:52-126 | after any breaking termination that leaves an active pipe, the next read fails the assertion if and only if the pipe now under the current position has nothing to read, and otherwise delivers a frame that is not of the message that was begun |
| FqRuns.BrokenRun | src/fq.cpp:52-69 | a run from the empty queue in which another pipe's termination makes a message of pipe 3 be continued by pipe 1 |
| FqRuns.AbortedRun | src/fq.cpp:109-112 | the same run when pipe 1 has nothing to read fails the assertion, although the rest of the message of pipe 3 is there |
| FqFair.ReadDelivers | src/fq.cpp:83-126 | between messages a read delivers a frame whenever some active pipe has one, from a pipe that has one |
| FqFair.ReadContinues | src/fq.cpp:83-126 | in the middle of a message a read delivers the next frame of the same pipe |
| FqFair.ServedInTurn | src/fq.cpp:45-150 | while an active pipe that has something to read is not served, the messages delivered are at most its distance plus the pipes that joined plus the setbacks by terminations |
| FqFair.JoinerIsActive | src/fq.cpp:45-76 | a pipe that is attached or activated is active, behind no more than the pipes that are |
| FqFair.LastInIsLastServed | src/fq.cpp:52-106 | in every run the remembered pipe is that of the last whole message delivered, or none once that pipe has gone away |
| Decoder.FeedSplit | src/decoder.hpp:100-148 | parsing a stream does not depend on where it is cut, for every step machine whose chains of empty steps end |
| Decoder.FeedGrows | src/decoder.hpp:100-148 | messages are only added, and a decoder that stops on a message has added one |
| Decoder.DecoderT.RunSteps | src/decoder.hpp:118-145 | the steps whose data is complete run until one waits for data, returns a message or fails, and this is what the parser does |
| Decoder.DecoderT.Decode | src/decoder.hpp:100-148 | on the copying and the in-place path, what was used and what is left parse as the whole buffer would |
| Decoder.DecoderT.GetBuffer | src/decoder.hpp:72-92 | the data goes into the message itself exactly when that needs at least a whole buffer |
| Decoder.ProcessInput | src/stream_engine_base.cpp:294-307 | decoding a buffer to its end, in place or not, gives the state and the messages of the parser |
| Decoder.ReceiveStream | src/decoder.hpp:72-148 | however the reads of a stream fall, each into the message or the buffer as get_buffer decides, the decoder ends where the parser ends on the whole stream |
| Encoder.EncoderT.LoadMsg | src/encoder.hpp:129-134 | what remains to be written is the encoding of the message |
| Encoder.EncoderT.Encode | src/encoder.hpp:74-127 | what is returned and what remains is what remained before; a supplied buffer is not overrun; a batch that is not full ends the message |
| Encoder.Drain | src/encoder.hpp:74-127 | repeated calls, with the encoder's own buffer and supplied ones of any sizes, return exactly the encoding, in order |
| WireFormat.GetPut | src/wire.hpp:50-100 | reading a number in network byte order undoes writing it |
| V1Language.MostSignificantFirst | src/wire.hpp:50-100 | the first byte of a number is the most significant one |
| V1Codec.PiecesAreWire | src/v1_encoder.cpp:49-77 | the steps of the encoder write the header and then the body |
| V1Codec.FrameRoundTrip | src/v1_decoder.cpp:59-156 | a frame decodes to itself, or to an error if and only if its body is above the limit |
| V1Codec.StreamRoundTrip | src/v1_decoder.cpp:59-156 | a stream of frames decodes to those frames and leaves the decoder between frames |
| V1Codec.PrefixDecodes | src/v1_decoder.cpp:59-156 | a prefix of a stream decodes to exactly the frames that are whole in it |
| V1Language.DecodesAsRead | src/v1_decoder.cpp:59-156 | every stream of bytes, well formed or not, decodes to the frames that a parser of the whole stream finds, with an error exactly at a size of zero or a body above the limit |
| V1Language.WireLength | src/v1_encoder.cpp:49-77 | a frame takes two bytes more than its body, or ten from 254 bytes on |
| PgmSender.PackerT.BuildPacket | src/pgm_sender.cpp:182-212 | the loop builds the specified packet, payload and offset, and leaves the encoder as specified; the payload continues the stream; the packet is full or the session is empty; the marked place is the beginning of a multipart message, and the first one in the packet when the capacity is at most 0xffff |
| PgmSender.FillKept | src/pgm_sender.cpp:182-212 | for every capacity and queue, the specified packet accounts for the frames taken, and its offset is the low 16 bits of a place where a multipart message begins, or 0xffff |
| PgmSender.SomethingIsBuilt | src/pgm_sender.cpp:182-212 | a packet is not empty when there is room and the encoder or the session has something |
| PgmSender.SenderT.OutEvent | src/pgm_sender.cpp:178-239 | the packet that waits, or otherwise the one that is specified, unless it is empty, goes to the socket if that accepts it and waits if not; the packets carry exactly what was emitted; up to a capacity of 0x10000 all offsets name beginnings, and up to 0xffff the first one in the packet |
| PgmSender.WideBufferMisplacesStart | src/pgm_sender.cpp:188-193 | for every capacity above 0x10000 there is a frame that fills a packet, and the packet specified for its rest carries an offset at which no message begins |
| PgmReceiver.ReceiverT.ProcessInput | src/pgm_receiver.cpp:274-294 | decoding stops at the end of the packet, at a frame the session has no room for, or at an error, and loses nothing |
| PgmReceiver.ReceiverT.InEvent | src/pgm_receiver.cpp:208-268 | a packet has the effect it has on a receiver whose session takes everything, also when the input stalls |
| PgmReceiver.ReceiverT.RestartInput | src/pgm_receiver.cpp:120-157 | the frame that waited is handed over first, and the rest of the packet is decoded as if there had been no stall |
| PgmReceiver.ReceiverT.Loss | src/pgm_receiver.cpp:204-212 | lost data takes the peer back to not joined, and what was handed to the session before stays |
| PgmReceiver.ReceiverT.Serve | src/pgm_receiver.cpp:120-268 | a packet with all the restarts it needs has the effect it has when the session takes everything, and then nothing waits |
| PgmTheorems.OffsetsAreProper | src/pgm_receiver.cpp:236 | the receiver's assertion that an offset lies within its packet never fires |
| PgmTheorems.LateJoin | src/pgm_receiver.cpp:214-250 | a receiver that starts at any packet of a loss-free suffix delivers nothing while no packet names a beginning, and otherwise exactly the frames from the beginning that the first such packet names up to the last whole one |
| PgmTheorems.JoinsFirstMessage | src/pgm_sender.cpp:188-193 | with a capacity of at most 0xffff no multipart message begins in what was received before the frame it joins with |
| PgmTheorems.ReceivesAsRead | src/pgm_receiver.cpp:251-294 | whatever bytes come, a joined receiver leaves the stream exactly when there is an error in what it has got, and otherwise has the frames in it |
| PgmRuns.SendRun | src/pgm_sender.cpp:178-239 | in every run of a sender the packets carry the frames it took, in order, but for what is still in the encoder, with the offsets as promised |
| PgmRuns.FindSpan | src/pgm_receiver.cpp:204-212 | every packet that is not lost lies in one of the spans that the losses leave |
| PgmRuns.LostOutside | src/pgm_receiver.cpp:204-212 | no packet that is lost lies in a span |
| PgmRuns.ReceiveRun | src/pgm_receiver.cpp:120-268 | in every run of a receiver, whatever is lost and however its session stalls, it ends as one whose session takes everything and that started at the last loss, and what came before is handed over |
| PgmRuns.SegmentEnds | src/pgm_receiver.cpp:204-268 | what the session is given between two losses begins with the first frame of a message, and ends with the last frame of one if and only if the next frame begins another |
| PgmRuns.SegmentsInOrder | src/pgm_receiver.cpp:204-268 | over losses no frame is given to the session twice or out of order |
| PgmRuns.LossyReceiver | src/pgm_receiver.cpp:120-268 | from end to end, for all messages, packetizations, losses and stalls, the session is given one segment for each span of packets received: nothing, or exactly the frames from the first named beginning up to the last whole one |
| PgmRuns.LateJoiner | src/pgm_receiver.cpp:120-268 | when only the first packets are lost, the session is given exactly the frames from the first named beginning up to the last whole one |
| Metadata.ExactlyThePairs | src/mechanism.cpp:305-361 | a socket accepts exactly the types that form one of twelve combinations with its own, so acceptance is mutual, and no other value |
| MetadataObject.BasicPropertiesLen | src/mechanism.cpp:194-213 | the loop computes exactly the number of bytes that the properties take |
| MetadataObject.AddProperty | src/mechanism.cpp:133-153 | the property is written at the position and no other byte changes |
| MetadataObject.AddBasicProperties | src/mechanism.cpp:163-192 | with room for the computed length no length assertion fires, and the buffer holds the properties in order |
| MetadataObject.MakeCommand | src/mechanism.cpp:215-230 | the command is the prefix and the properties, with no byte to spare |
| MetadataObject.MechanismT.ParseMetadata | src/mechanism.cpp:232-285 | the loop stores the properties before the verdict, keeps the first value of a name, and takes the identity when it is wanted |
| MetadataTheorems.AcceptedLanguage | src/mechanism.cpp:232-285 | data is accepted if and only if it is whole acceptable properties, optionally followed by one that ends right after its nonempty name or right after a nonzero value length |
| MetadataTheorems.RefusedLanguage | src/mechanism.cpp:258-272 | data is refused if and only if a socket type that does not fit, or a property that the hook refuses, follows whole acceptable properties |
| MetadataTheorems.PropertiesAreUnique | src/mechanism.cpp:232-285 | accepted data determines its properties |
| MetadataTheorems.StoredFirst | src/mechanism.cpp:273-276 | of several values for a name the first one is stored |
| MetadataTheorems.RoundTrip | src/mechanism.cpp:163-285 | parsing what a compatible peer announces, and the hook lets pass, recovers every pair; what an incompatible peer announces is refused with nothing stored |
| MetadataTheorems.AnnouncedIsStored | src/mechanism.cpp:163-285 | every value that a peer announces is stored under its name |
| MetadataTheorems.NoIdentity | src/mechanism.cpp:262-263 | the peer's routing id stays when no property is named Identity, or it is not wanted |
| MetadataTheorems.LastIdentity | src/mechanism.cpp:262-263 | of several identities that are wanted the last one counts |
| MetadataTheorems.AnnouncedIdentity | src/mechanism.cpp:163-192 | a REQ, DEALER or ROUTER socket announces its routing id, and no other does |
| MetadataTheorems.HookRefuses | src/mechanism.cpp:262-273 | a property that the mechanism's hook refuses makes the handshake fail |
| MetadataObject.Handshake | src/mechanism.cpp:163-285 | on the bytes that one socket makes and another parses: a compatible peer's properties are all stored and nothing else, its routing id is learnt if wanted and it is a REQ, DEALER or ROUTER, and an incompatible peer is refused with nothing taken |

Where the code and its documentation disagree, the model follows the code: `parse_metadata` accepts a last property
that ends right after its name or right after its value length, which the grammar of RFC 23 does not allow.

## Left out

- Mtrie.Add: nodes are values that are rebuilt, so in-place update of nodes, the allocation of tables and aliasing are not captured; the same holds for Mtrie.Rm and MtrieBulk.RmHelper.
- MtrieBulk.Realloc: the path buffer is a sequence whose new bytes are zero; only its length and the kept bytes are used.
- OwnTheorems.ShutdownSafety: fewer than 2^32 counted commands are announced to an object, which `CounterIsExactBelowWrap` shows to be needed; mailboxes are first-in first-out, and outside calls of inc_seqnum are made on live objects and paid by one counted command each.
- InprocTheorems.NoConnectionLost: each call is one step, as the registry's lock makes it, and a socket is used by one thread; pipes, routing ids and high-water marks of the connection are not part of this model.
- OwnTheorems.ExactlyOnePhase: an acknowledgement does not say which child it is from, so destroyed children are counted and have no phase each.
- OwnObject.OwnT.ProcessCommand: the commands of the ownership protocol only; pipe, reaper and statistics commands are not part of this model.
- OwnSystem.SystemT.Deliver: the commands of the ownership protocol only, as for OwnObject.OwnT.ProcessCommand.
- OwnDrain.DrainCompletes: a half-done launch whose owner has been announced 2^32 - 1 commands is excluded, since the next one would wrap the count; the same holds for OwnDrain.ShutdownHappens.
- OwnShutdown.TerminateEnds: such a launch is excluded too, and a child that calls while its owner's thread is launching it, whose request `OwnEarlyRequest.EarlyRequestIsLost` shows to be ignored.
- InprocObject.CtxT.ConnectInprocSockets: the pipes' thread, routing ids and high-water marks are not captured.
- LbRuns.FlushedIsWhole: misdirecting terminations and a refused last frame that is sent again without blocking are excluded, and shown to break it; the same holds for LbRuns.ArrayFlushedIsWhole.
- FqRuns.DeliveredAtomically: breaking terminations are excluded, and shown to break it.
- Dist.DistT.Activate: the pipe is passive, as a pipe is when it reports that it can be written again; on an eligible pipe the swap would wake another one.
- Dist.DistT.Write: the flush after a last frame is not captured; the pipes' streams are those that were written.
- DistRuns.OnlyWholePrefixes: matching changes between messages only, and all frames of a message are sent the same way, as the sockets do.
- MsgObjects.MsgT.Close: the reference to the message's metadata is not captured; the same holds for MsgObjects.MsgT.Copy.
- Decoder.DecoderT.GetBuffer: the allocation of a buffer at each call is not captured; MsgObjects models the allocator.
- Decoder.DecoderT.Decode: bytes are copied by value; that the in-place path shares memory with the receive buffer is not captured.
- Decoder.ProcessInput: the session takes every message; a session that refuses one is modelled for the PGM receiver.
- Encoder.EncoderT.Encode: the zero-copy path returns the message's bytes; that it returns its memory is not captured.
- PgmReceiver.ReceiverT.InEvent: one peer at a time; the map of peers by transport session, timers and polling are not part of this model.
- PgmRuns.LateJoiner: all frames have bodies within the receiver's limit, so no decoder fails; the same holds for PgmRuns.LossyReceiver.
- MetadataObject.MechanismT.ParseMetadata: the draft socket types are not part of this model.
- Pipes (pipe_t, ypipe): they enter as sets of pipes that refuse a write, have a message or are full, and as flushed and unflushed frames.
- Reference counts of message metadata, and messages from user data or of the join and leave kinds: they would repeat the counting of contents.
- v2 framing, WebSocket framing and heartbeats: they add other step machines to the same decoder and encoder.
- CURVE, PLAIN and GSSAPI handshakes, the ZAP client and options: they rest on other libraries or are settled one branch at a time.
- Pollers, I/O threads, the reaper, monitors, listeners and connecters: foreign calls with no property that the code itself decides.
- Clocks, timers, random numbers and memory exhaustion: left out or parameters of the steps.
