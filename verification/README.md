# Verification of the concurrency, index and byte-format cores of conartist

Nine cores of the program are modelled here, and their behaviour is proved for every input, every
interleaving or every run. Each is modelled in the form the source has: objects with fields, arrays and
loops are classes and methods, proved against specification functions or transition systems; the
properties themselves are lemmas about those.

| core | files |
|---|---|
| Worker pool with pending and completed rings | `Ring.dfy`, `JobPool.dfy`, `JobPoolInvariant.dfy`, `JobPoolTheorems.dfy`, `JobPoolStopping.dfy`, `JobPoolStranding.dfy`, `JobPoolTrace.dfy`, `JobManager.dfy` |
| Blocking channel with one condition variable | `Channel.dfy`, `ChannelProtocol.dfy`, `ChannelCapacity.dfy`, `ChannelTrace.dfy`, `SharedChannel.dfy` |
| Stream items with 40-bit relative time | `StreamLog.dfy` |
| Loop that answers stream requests | `RequestLoop.dfy` |
| Sorted index of id-to-name mappings | `MappingList.dfy`, `MappingIndex.dfy`, `MappingRuns.dfy` |
| Sharded registry of stream ids | `StreamIdRegistry.dfy` |
| Flat JSON scanner | `JsonScanner.dfy`, `JsonRoundTrip.dfy`, `JsonSafety.dfy`, `JsonGrammar.dfy` |
| Socket framing, connection tables and batches of events | `Framing.dfy`, `ConnTable.dfy`, `ConnTrace.dfy`, `EventBatch.dfy` |
| Image reassembly | `ImageAssembly.dfy` |

`Basics.dfy` and `Counting.dfy` hold what several of them have in common. The whole project is checked with
`dafny verify dfyconfig.toml`.

**Threads.** A protocol is a transition system with one step for each critical section. A step that signals
carries the scheduler's choice of the sleeper that wakes, and spurious wake-ups are steps of their own, so
the runs are all interleavings. The methods of `JobManager` and `SharedChannel` are passes through these
critical sections on the real rings and linked nodes; each is shown to perform a step of its transition
system (`Performs`), so that the theorems about runs are about them.

**States told from steps.** `JobPoolTrace`, `ChannelTrace` and `ConnTrace` define by the steps or operations alone
what was submitted, sent, taken, delivered, opened and closed, and show that every run ends in just that. So the
history that a state records is not only what the steps say of themselves.

**Where the code differs from what it promises.** The code is modelled as it stands, next to what it is
meant to do, and the exact condition under which the two agree is proved:

| source | what the code does | agreement |
|---|---|---|
| `source/main/cpp/job_manager.cpp:82-92` | a ring's pop does not copy the second argument (`copiesData1` false) | `SecondArgumentSurvives`: just if no started job has one; `SecondArgumentLost` is a run in which one does |
| `source/main/cpp/job_manager.cpp:256-264` | the -1 of `pop_completed_wait` is said to mean that no more completions come | `GiveUpIsFinal`: just if no worker holds a job then; `GivesUpTooEarly` is a run in which one does |
| `source/main/cpp/job_manager.cpp:260-310` | a consumer that sleeps while a stop drains may be left asleep for good: it is woken only by a result of its channel, and only if no other consumer of the channel is woken instead | `NobodyStranded`: in no run just if there is no consumer, or one consumer and one channel |
| `source/main/cpp/channel.cpp:69-109` | producers and consumers share one condition variable, and signals are never broadcast | `CapacityNeeded`: the two kinds never sleep at once just if one is missing or there is a place for every thread of either |
| `source/main/cpp/stream_manager.cpp:406` | a time outside the 40-bit range is stored modulo that range | `StreamReadsBack`: times come back just if all are in range |
| `source/main/cpp/stream_manager.cpp:402`, `408` | the sums that test for room and that move the cursor have 32 bits | `AcceptsExactly`: only what fits is accepted just if there is room for the greatest 32-bit size; `WriteData`: an accepted item is appended just if its sum does not wrap; `GreatItemLost`: one of 2^32 - 5 bytes is accepted and does not move the cursor |
| `source/main/cpp/stream_manager.cpp:652-655`, `700-706` | the popped request is returned as a pointer to the slot that was just overwritten, into which its file is then written; later answers and arrivals overwrite the slot again | `LateReadsNeedSteady`: every pointer shows its request and its file at the end of every later round just if in each round the active requests are alike from the first known one on and get the same file, and what is answered or stays at a slot from which one was answered before is like that one, file included |
| `source/main/cpp/stream_request.cpp:85-91`, `264-278` | an added mapping is not entered in the index, which is searched to its full new size | `FoundIfNamed`: an id is found just if the index memory names a mapping with it; of memory that is zero, `ZerosKnowOneId`: all ids are found just if all are one, and `ZerosMergeRight`: the mappings are right just if no id but the first is loaded twice, ever; `NoMemoryIsRight`: no memory of three places or more makes every load right |
| `source/main/cpp/stream_request.cpp:247`, `261` | the loaded mappings are taken from the job's second argument, which is pushed as NULL and which the ring's pop does not set: as written no load reaches the merge, the first finished job reading through an unset pointer | the merge is modelled with the loaded mappings given (`Load`), which is how it would be reached through the first argument |
| `source/main/cpp/stream_id_registry.cpp:43` | a shard stores its own count where the id's index is meant | `CountNeedsOneShard`: the registry is the meant one just if all registered ids hash to one shard; `CountedIdempotence`: registering again changes nothing just if the id was found or all ids there are in its shard |
| `source/main/plugins/geekopen.cpp:114-135` | the character behind the text is looked at | `SafeExactly`: all spans lie in the text just if that is no quote or the text does not end in blanks where a value is expected; `SafeForAllTexts`: on all texts just if it is no quote or no property is asked for |
| `source/server/cpp/unix_socket_server.cpp:214-215` | EAGAIN inside a message forgets the bytes read of it | `AllDelivered`: all messages arrive just if EAGAIN comes only between messages |
| `source/server/cpp/unix_socket_server.cpp:418-428`, `506-541` | a server that moves to another slot leaves its connections pointing to the old one, and an event closes a connection through that pointer | `EventsNeedPointers`: events keep the tables and the queue in step just if every m_server is right; `RunGoodExactly`: over a run, just if no server with connections moves; `ClosedTwice` gives a descriptor closed twice |
| `source/server/cpp/unix_socket_server.cpp:488-548` | the events of a batch name slots, and what is in a slot may change before its event is handled | `EventActsOn`: an event acts on the connection it was raised for just if the server has had more connections than the slot's place since the batch was fetched; otherwise it is ignored or hits a client accepted meanwhile (`StaleEventHitsNewClient`) |
| `source/main/plugins/imagepacket.cpp:65-66` | completion counts blocks, also those that come twice | `CompleteMeansNoRepeats`: right just if none does; `RepeatedTile` is one that does |
| `source/main/cpp/channel.cpp:114-129` | the non-blocking pop returns NULL when there is nothing, and also for a queued NULL | `PopNowait` tells the two apart by a flag of its own, which its caller in the code does not have |

## Model

| member | source | states |
|---|---|---|
| Rings.Ring.constructor | source/main/cpp/job_manager.cpp:43-54 | A new ring is empty and has the given capacity. |
| Rings.Ring.Push | source/main/cpp/job_manager.cpp:68-79 | On the wrapped buffer, push appends to the queued sequence, and is refused with the sequence unchanged exactly when it holds capacity jobs. |
| Rings.Ring.Pop | source/main/cpp/job_manager.cpp:82-92 | Pop removes and returns the oldest job, its second argument only if the ring copies it, and is refused exactly when empty. |
| Rings.Ring.Reset | source/main/cpp/job_manager.cpp:297-303 | Dropping empties the ring. |
| Rings.SegmentSnoc | source/main/cpp/job_manager.cpp:72-77 | A store at the wrapped tail extends the queued segment at its end and changes nothing else of it. |
| Rings.SegmentTail | source/main/cpp/job_manager.cpp:86-90 | Advancing the wrapped head removes exactly the first element of the segment. |
| JobManagers.JobManager.constructor | source/main/cpp/job_manager.cpp:124-140 | The pool starts in the initial state, with at least one worker and one pending slot. |
| JobManagers.JobManager.Submit | source/main/cpp/job_manager.cpp:217-235 | Submit accepts exactly non-NULL jobs while running and not full, puts the very job behind the pending ones, performs the submit step, and otherwise changes nothing. |
| JobManagers.JobManager.LookForJob | source/main/cpp/job_manager.cpp:347-368 | The top of the worker loop takes the oldest pending job if there is one, and else leaves if the pool stops and sleeps if not, each as the step of that name. |
| JobManagers.JobManager.JobDone | source/main/cpp/job_manager.cpp:370-377 | Returning from the job function performs the finish step. |
| JobManagers.JobManager.HandOver | source/main/cpp/job_manager.cpp:376-389 | The bottom of the worker loop waits exactly if the ring of the job's own channel is full, and else puts the job behind the results there, each as the step of that name. |
| JobManagers.JobManager.PopCompleted | source/main/cpp/job_manager.cpp:239-252 | The non-blocking pop returns the oldest result of the channel and performs a pop step, or reports that there is none. |
| JobManagers.JobManager.PopCompletedWait | source/main/cpp/job_manager.cpp:257-279 | A pass of the blocking pop pops the oldest result if there is one, and else gives up if the pool stops with nothing pending and sleeps if not, each as the step of that name. |
| JobManagers.JobManager.Stop | source/main/cpp/job_manager.cpp:284-312 | The first stop performs the stop step: it records its argument, keeps pending if it drains and empties it if not, leaves the results alone and nobody asleep among the workers; later ones do nothing. |
| JobManagers.JobManager.StaysReachable | source/main/cpp/job_manager.cpp:217-392 | Whatever a method performs leads from reachable to reachable states, so the theorems below hold of the object. |
| JobPoolInvariant.StepInv | source/main/cpp/job_manager.cpp:217-392 | Every step by any thread keeps order, whereabouts of jobs, own channels, the wake-up obligations and the meaning of stopping. |
| JobPoolInvariant.ReachableInv | source/main/cpp/job_manager.cpp:217-392 | That invariant holds in all reachable states, for any number of workers, consumers and channels. |
| JobPoolTheorems.Conservation | source/main/cpp/job_manager.cpp:217-235 | Every accepted job is dropped, pending, held by a worker, in a completed ring or popped, in just one of these, and no job is started more often than it was accepted. |
| JobPoolTheorems.ResultsStayOnTheirChannel | source/main/cpp/job_manager.cpp:385-389 | A result is only ever in, or popped from, the ring of its own channel. |
| JobPoolTheorems.SecondArgumentSurvives | source/main/cpp/job_manager.cpp:82-92 | Workers get the submitted jobs unchanged if and only if the ring copies the second argument or no started job has one. |
| JobPoolTheorems.SecondArgumentLost | source/main/cpp/job_manager.cpp:82-92 | There is a run in which a job submitted with a second argument is run without it, for any number of workers and consumers. |
| JobPoolTheorems.NoLostWakeups | source/main/cpp/job_manager.cpp:350-388 | A sleeper on any of the three kinds of condition variable leaves at least as many awake threads as there are jobs, free places or results for it. |
| JobPoolTheorems.StartsInSubmissionOrder | source/main/cpp/job_manager.cpp:228-367 | Accepted jobs are the started, the pending and the dropped ones, in this order, for any number of workers. |
| JobPoolTheorems.OneWorkerKeepsChannelOrder | source/main/cpp/job_manager.cpp:344-392 | With one worker, what was popped, completed, in hand, pending and dropped on a channel is its submission order. |
| JobPoolTheorems.TwoWorkersReorder | source/main/cpp/job_manager.cpp:371-387 | With two or more workers there is a run in which results of a channel come out of order. |
| JobPoolTheorems.OrderNeedsOneWorker | source/main/cpp/job_manager.cpp:344-392 | Channel order holds in all runs if and only if there is one worker. |
| JobPoolTrace.RunTold | source/main/cpp/job_manager.cpp:217-392 | In every run, by its steps alone: what was accepted, started and dropped, whether and how the pool stops, which job each worker holds, what each consumer waits for, and what each channel has had and given out. |
| JobPoolTrace.SubmittedAre | source/main/cpp/job_manager.cpp:228-367 | The jobs of the submit steps, in order, are the started, the pending and the dropped ones, as many started as there were takes. |
| JobPoolTrace.OneWorkerKeepsSubmissionOrder | source/main/cpp/job_manager.cpp:344-392 | With one worker, what was popped, completed, in hand, pending and dropped on a channel are the submitted jobs for it, in order. |
| JobPoolTrace.SubmissionOrderNeedsOneWorker | source/main/cpp/job_manager.cpp:344-392 | In all runs the deliveries of every channel come in the order of its submit steps, none skipped, if and only if there is one worker. |
| JobPoolTrace.StopDecides | source/main/cpp/job_manager.cpp:284-312 | After a stop, in every run from there: nothing more is accepted and its argument stays in force; one that drains drops nothing, and all that was pending is started or still pending; one that does not starts nothing and drops just what was pending. |
| JobPoolTrace.DrainLosesNothing | source/main/cpp/job_manager.cpp:284-324 | In a run without a stop that does not drain, the submitted jobs are the started and pending ones; when all workers have left, all were started and are in the rings or popped. |
| JobPoolTrace.HardStopDropsTheRest | source/main/cpp/job_manager.cpp:292-301 | A stop that does not drain discards just the submitted jobs that nobody had taken, and nothing is started after it. |
| JobPoolStopping.StepUsesWork | source/main/cpp/job_manager.cpp:344-392 | Once stopping, each take, finish, deliver and exit lessens the work left and no other step adds to it. |
| JobPoolStopping.StopTerminates | source/main/cpp/job_manager.cpp:284-324 | A run from a stopping pool, spurious wake-ups included, has no more progress steps than there was work left. |
| JobPoolStopping.StopNeverStuck | source/main/cpp/job_manager.cpp:378-384 | While stopping, some progress step is enabled unless every live worker faces a full completed ring. |
| JobPoolStopping.ExitLeavesNothingBehind | source/main/cpp/job_manager.cpp:355-360 | When all workers have left, nothing is pending and every started job is in a ring or popped; after a drain these are all accepted jobs. |
| JobPoolStopping.AfterGiveUp | source/main/cpp/job_manager.cpp:257-267 | After a -1, deliveries plus jobs still held always make up the jobs held at that moment, hence at most one for each worker. |
| JobPoolStopping.CanDeliver | source/main/cpp/job_manager.cpp:370-388 | A worker that holds a job can always still be brought to deliver it. |
| JobPoolStopping.GiveUpIsFinal | source/main/cpp/job_manager.cpp:254-267 | A -1 means that no completion can follow if and only if no worker holds a job then. |
| JobPoolStranding.GivesUpTooEarly | source/main/cpp/job_manager.cpp:254-267 | There is a run of a draining pool in which a -1 is returned while a worker holds a job of that very channel. |
| JobPoolStopping.StopPutsConsumersBackToSleep | source/main/cpp/job_manager.cpp:260-310 | After stop has woken everybody, a consumer without result may sleep again in some run, perhaps only for a while, if and only if the stop drains and jobs were pending. |
| JobPoolStranding.StrandedForGood | source/main/cpp/job_manager.cpp:260-269 | A consumer asleep when all workers have left stays asleep in every run without a spurious wake-up of it. |
| JobPoolStranding.StepResultToCome | source/main/cpp/job_manager.cpp:344-392 | With one consumer and one channel, every step keeps it that while the pool stops the consumer sleeps only as long as a result is still to come. |
| JobPoolStranding.OneConsumerNeverStranded | source/main/cpp/job_manager.cpp:257-312 | One consumer on one channel is never left asleep for good, in any run. |
| JobPoolStranding.OtherChannelStrands | source/main/cpp/job_manager.cpp:260-310 | With a second channel there is a run that leaves a consumer asleep for good, for any number of workers and any capacities. |
| JobPoolStranding.OtherConsumerStrands | source/main/cpp/job_manager.cpp:260-310 | With a second consumer there is one, too, even on the same channel. |
| JobPoolStranding.NobodyStranded | source/main/cpp/job_manager.cpp:257-312 | No run leaves a consumer asleep for good if and only if there is no consumer, or one consumer and one channel. |
| Channels.Channel.constructor | source/main/cpp/channel.cpp:49-58 | All nodes start on the free list, in array order, and the queue is empty. |
| Channels.Channel.Push | source/main/cpp/channel.cpp:72-88 | Push appends to the queue, or waits exactly when it holds capacity items. |
| Channels.Channel.Append | source/main/cpp/channel.cpp:76-85 | Relinking the first free node behind the tail appends the item to the queue and keeps both lists well formed. |
| Channels.Channel.Unlink | source/main/cpp/channel.cpp:98-105 | Relinking the head onto the free list removes and returns the first item. |
| Channels.Channel.Pop | source/main/cpp/channel.cpp:94-108 | Pop takes the first item, or waits exactly when there is none. |
| Channels.Channel.PopNowait | source/main/cpp/channel.cpp:114-129 | The non-blocking pop takes the first item, or says by a flag exactly when there is none; the caller in the code gets NULL then, as it does for a queued NULL. |
| Channels.Channel.EveryNodeListedOnce | source/main/cpp/channel.cpp:49-58 | Each node is on the queue or on the free list and never on both: the lists are acyclic, disjoint and cover the array. |
| Channels.PushLinks | source/main/cpp/channel.cpp:76-84 | The pointer assignments of push keep the two lists threaded through the node array, with tail the last queued node. |
| Channels.PopLinks | source/main/cpp/channel.cpp:98-105 | The pointer assignments of the pops keep them as well. |
| SharedChannels.SharedChannel.PushPass | source/main/cpp/channel.cpp:69-89 | A producer's pass puts the item it was called with behind the queue, or sleeps with it exactly when the channel is full, as the step of that name. |
| SharedChannels.SharedChannel.PopPass | source/main/cpp/channel.cpp:91-109 | A consumer's pass takes and returns the oldest item, or sleeps exactly when there is none, as the step of that name. |
| SharedChannels.SharedChannel.PopNowaitPass | source/main/cpp/channel.cpp:111-130 | A non-blocking pop performs its step or leaves the channel as it was. |
| ChannelProtocol.BoundedFifo | source/main/cpp/channel.cpp:69-130 | In every run what was pushed is what was popped followed by the queue, which never exceeds the capacity. |
| ChannelTrace.RunTold | source/main/cpp/channel.cpp:69-130 | In every run, by its steps alone: what was pushed, at each push the item of that producer's last call, how much was popped, and which threads are inside a call and with what item. |
| ChannelTrace.ChannelHoldsWhatWasSent | source/main/cpp/channel.cpp:69-130 | What came out are the first of the items sent, as many as there were pops, and the channel holds the others, never more than its capacity. |
| ChannelTrace.EachProducerInOrder | source/main/cpp/channel.cpp:69-89 | The items of each producer go in in the order of its calls, each once, but for that of the call it is in. |
| ChannelProtocol.StepInv | source/main/cpp/channel.cpp:69-130 | With a place for every thread of either kind, each step keeps the wake-up obligations and the two kinds of sleeper apart. |
| ChannelProtocol.NoLostWakeups | source/main/cpp/channel.cpp:72-107 | Then producers and consumers never sleep at once, a sleeping consumer implies as many awake ones as items, a sleeping producer as many as free places. |
| ChannelCapacity.TooManyProducers | source/main/cpp/channel.cpp:72-86 | With more producers than places there is a run after which both kinds sleep. |
| ChannelCapacity.TooManyConsumers | source/main/cpp/channel.cpp:94-106 | With more consumers than places there is one, too. |
| ChannelCapacity.CapacityNeeded | source/main/cpp/channel.cpp:69-130 | Both kinds never sleep at once, in all runs, if and only if one kind is missing or the capacity is at least the number of each. |
| ChannelCapacity.EverybodyAsleep | source/main/cpp/channel.cpp:72-106 | With one place, two producers and one consumer, all can end asleep although an item is queued. |
| StreamLog.ReadsLowBytes | source/main/cpp/stream_manager.cpp:357-365 | Reading n little-endian bytes of a written value gives the value but for a multiple of 256 to the n. |
| StreamLog.LowestFirst | source/main/cpp/stream_manager.cpp:357-375 | Byte i of a written value is its i-th lowest. |
| StreamLog.ItemBytes | source/main/cpp/stream_manager.cpp:404-407 | An item is stored as the five low bytes of its time since begin, lowest first, and its data behind them. |
| StreamLog.WriteLittleEndian | source/main/cpp/stream_manager.cpp:357-375 | The byte loop stores the low bytes, lowest first, and touches no other byte. |
| StreamLog.Stream.AcceptsExactly | source/main/cpp/stream_manager.cpp:402 | The 32-bit test lets through only what fits, whatever the size, if and only if there is room for the greatest 32-bit size. |
| StreamLog.Stream.OrdinaryAccepted | source/main/cpp/stream_manager.cpp:402 | An item whose 32-bit sum does not wrap is accepted if and only if it fits; of another, only what is over 2^32 has to fit. |
| StreamLog.Stream.WriteData | source/main/cpp/stream_manager.cpp:396-414 | An item whose 32-bit sum does not wrap is appended if and only if it fits, and refused without a change if not; of the others just those that the test accepts are stored, touching no other byte, and then the log is not the longer one. |
| StreamLog.Stream.GreatItemLost | source/main/cpp/stream_manager.cpp:402-408 | An item of 2^32 - 5 bytes is accepted in every file, with or without room, and leaves the cursor where it was. |
| StreamLog.WriteTwoBytes | source/main/cpp/stream_manager.cpp:383-388 | Stores the two bytes of the value, lowest first, and touches no other byte. |
| StreamLog.Stream.WriteU8 | source/main/cpp/stream_manager.cpp:416-430 | Appends a one-byte item to the log. |
| StreamLog.Stream.WriteU16 | source/main/cpp/stream_manager.cpp:432-446 | Appends a two-byte little-endian item to the log. |
| StreamLog.Stream.WriteU32 | source/main/cpp/stream_manager.cpp:448-462 | Appends a four-byte little-endian item to the log; float items are the same with their bits. |
| StreamLog.Stream.Advance | source/main/cpp/stream_manager.cpp:408-410 | With an item's bytes in place, count and end time become those of the longer list of items, and the cursor does if and only if the 32-bit sum of the size does not wrap. |
| StreamLog.DecodesWhatWasWritten | source/main/include/cconartist/stream_manager.h:39-46 | Decoding the bytes of any list of k-byte items gives their payloads and, modulo the range of 5 bytes, their times. |
| StreamLog.TimeReadExactly | source/main/cpp/stream_manager.cpp:405-406 | A time is read back as written if and only if it is in the range from the stream's begin. |
| StreamLog.MaxTimeIsMax | source/main/cpp/stream_manager.cpp:410 | The end time is the greatest of the written times and the one before. |
| StreamLog.StreamReadsBack | source/main/cpp/stream_manager.cpp:396-478 | After any writes of k-byte items the bytes up to the cursor decode to the item list; the times come back unchanged if and only if all are in range. |
| StreamLog.StreamItemPlace | source/main/cpp/stream_manager.cpp:404-408 | Item i lies at start + i * (5 + k). |
| StreamLog.ValuesReadBack | source/main/cpp/stream_manager.cpp:367-388 | Two- and four-byte values read back as written. |
| RequestLoop.FirstMappingIsFirst | source/main/cpp/stream_manager.cpp:646-648 | The inner search finds the first mapping of the id, and finds one exactly if there is one. |
| RequestLoop.LoopReachesFixpoint | source/main/cpp/stream_manager.cpp:687-713 | The answering loop answers every active request with a mapping exactly once, with the first mapping of its id, and leaves exactly the others active. |
| RequestLoop.PointersShowAnswers | source/main/cpp/stream_manager.cpp:650-655 | At the moment they are pushed, the returned pointers show the answered requests if and only if all active ones from the first known one on are alike. |
| RequestLoop.PointerShowsAnother | source/main/cpp/stream_manager.cpp:652-655 | With two requests, the first known, the pointer shows the second. |
| RequestLoop.LoopShows | source/main/cpp/stream_manager.cpp:687-713 | What a loop pushes shows right behind it if and only if the active requests were alike and their files the same, and then one slot got its file and no other changed. |
| RequestLoop.LateReadsNeedSteady | source/main/cpp/stream_manager.cpp:663-715 | Over any run, every pushed pointer shows its answered request and the file made for it at the end of every later round if and only if the run is steady: in each round the active requests are alike from the first known one on and get the same file, and what is answered at a slot, or arrives and stays there, is like whatever was answered from there before. |
| RequestLoop.LateReaderSeesNext | source/main/cpp/stream_manager.cpp:669-711 | A request answered alone, and another, or the same one with another file, answered before that is read: the pointer shows the other. |
| RequestLoop.KnownBelowAnother | source/main/cpp/stream_manager.cpp:641-655 | A request that becomes known while a different one is active behind it: its pointer comes to show that one. |
| RequestLoop.SecondFileForBoth | source/main/cpp/stream_manager.cpp:698-709 | Of two active requests that are alike and get different files, one pointer shows the file of the other. |
| RequestLoop.RunConserves | source/main/cpp/stream_manager.cpp:663-715 | Over every run of the thread, what arrived is what was answered plus what is active, each as often. |
| RequestLoop.RunAnswersKnown | source/main/cpp/stream_manager.cpp:663-715 | A request whose id has a mapping in the last round has been answered as often as it arrived. |
| RequestLoop.FoundsAre | source/main/cpp/stream_manager.cpp:687-713 | What the loop finds, one after the other, are the answers, the pushed pointers and what these show. |
| RequestLoop.PushedAt | source/main/cpp/stream_manager.cpp:700-709 | The i-th pointer pushed in a turn is to the slot of the i-th request found, and is to show it with the i-th file made, or none where making it failed. |
| RequestLoop.StreamThread.FindKnown | source/main/cpp/stream_manager.cpp:641-649 | The search finds the first active request with a mapping, and its first mapping. |
| RequestLoop.StreamThread.PopKnownRequest | source/main/cpp/stream_manager.cpp:639-661 | Removes the first known request by moving the last into its slot, changes no other slot, and says what that slot then shows. |
| RequestLoop.StreamThread.AnswerOne | source/main/cpp/stream_manager.cpp:698-712 | A turn of the loop removes the request found, and its slot gets the last request and the file made. |
| RequestLoop.StreamThread.AnswerKnown | source/main/cpp/stream_manager.cpp:687-713 | The loop finds what the specification finds, in order, and leaves the slots, with the files in them, and the active requests as specified. |
| RequestLoop.StreamThread.Store | source/main/cpp/stream_manager.cpp:669-683 | An arrival is stored behind the active requests, over whatever the slot held. |
| RequestLoop.StreamThread.Turn | source/main/cpp/stream_manager.cpp:667-714 | A turn of the thread extends the run by one round; and each request that was active or arrived is answered, as often as it is there, exactly if its id has a mapping now, and else stays active. |
| MappingList.MergeMeaning | source/main/cpp/stream_request.cpp:252-274 | A merge as meant keeps the old mappings in place, keeps ids unique, and gives each new id the first name loaded for it. |
| MappingList.FirstNameStays | source/main/cpp/stream_request.cpp:252-278 | Over any run of meant merges, an id has the name it was first loaded with. |
| MappingList.EagerMerge | source/main/cpp/stream_request.cpp:253-274 | With a repaired index, searching what is there at each moment merges as meant. |
| MappingList.StaleMerge | source/main/cpp/stream_request.cpp:253-278 | With a repaired index that is sorted only behind the merge, every loaded mapping of an id that was not there before is added. |
| MappingList.StaleSearchIsEnough | source/main/cpp/stream_request.cpp:253-278 | These two repairs come to the same if and only if no new id is loaded twice. |
| MappingIndex.SearchSound | source/main/cpp/stream_request.cpp:59-83 | Whatever the index holds, what the binary search finds is an entry of it with the id. |
| MappingIndex.SearchFinds | source/main/cpp/stream_request.cpp:59-83 | On an ordered index the binary search finds an id if and only if an entry names it. |
| MappingIndex.SearchesAgree | source/main/cpp/stream_request.cpp:59-83 | With unique ids and every place in an ordered index, it agrees with a linear search on every id. |
| MappingIndex.Mappings.FindAgrees | source/main/cpp/stream_request.cpp:59-83 | So does the search of the repaired object. |
| MappingIndex.Mappings.Find | source/main/cpp/stream_request.cpp:59-83 | The loop finds what the search on the arrays finds, whatever they hold. |
| MappingIndex.Mappings.Add | source/main/cpp/stream_request.cpp:85-91 | Appends the mapping and leaves the index untouched. |
| MappingIndex.Mappings.Sort | source/main/cpp/stream_request.cpp:93-112 | The index up to the number of mappings is permuted into the order of ids, and nothing else changes. |
| MappingIndex.Mappings.Merge | source/main/cpp/stream_request.cpp:264-278 | The merge loop as it is: each loaded mapping is added unless the search of the index, up to the size reached so far, finds its id; then the index is sorted if anything was added. |
| MappingIndex.AddsIfNotFound | source/main/cpp/stream_request.cpp:264-274 | Whatever the index holds, the i-th loaded mapping is added behind the others if and only if the search does not then find its id, and the index is left alone. |
| MappingIndex.Mappings.MergeRepaired | source/main/cpp/stream_request.cpp:253-278 | With added mappings entered in the index, the merge computes the meant merge, or the one sorted only behind it, and leaves a complete ordered index. |
| MappingRuns.FoundIfNamed | source/main/cpp/stream_request.cpp:59-112 | Whatever the index memory held: after any run of loads an id is found if and only if that memory, up to the number of mappings, names a mapping with it. |
| MappingRuns.ZerosLoad | source/main/cpp/stream_request.cpp:264-278 | With index memory of zeros, what a run of loads leaves is the first mapping and every other one that has another id, each time it is loaded. |
| MappingRuns.ZerosKnowOneId | source/main/cpp/stream_request.cpp:264-278 | Then every loaded id is found if and only if all loaded mappings share one id. |
| MappingRuns.ZerosMergeRight | source/main/cpp/stream_request.cpp:264-278 | Then the mappings are those of the meant merges if and only if no id but the first is loaded twice, in one load or in different ones. |
| MappingRuns.NoMemoryIsRight | source/main/cpp/stream_request.cpp:264-278 | Whatever the index memory held, if it has three places or more: some load of at most three mappings leaves other mappings than the meant merge. |
| MappingRuns.ReloadDuplicates | source/main/cpp/stream_request.cpp:264-278 | Loading the same two mappings twice leaves the second twice. |
| MappingRuns.LoadedMappings.Load | source/main/cpp/stream_request.cpp:258-278 | A finished mappings job, with its loaded mappings given, extends the run of loads by one. |
| StreamIdRegistry.FindAgrees | source/main/cpp/stream_id_registry.cpp:47-58 | Searching the shard of an id gives what a linear search of all ids gives. |
| StreamIdRegistry.RegisterWellFormed | source/main/cpp/stream_id_registry.cpp:101-114 | In either way of storing, each shard keeps listing exactly the entries it is to list, one for each id that hashes to it. |
| StreamIdRegistry.RegisterSound | source/main/cpp/stream_id_registry.cpp:24-45 | Registering keeps ids unique and every shard sorted by id and complete, and returns the id's place. |
| StreamIdRegistry.RegisterIdempotent | source/main/cpp/stream_id_registry.cpp:101-105 | With the place stored, a second register of an id changes nothing and returns the same stream id. |
| StreamIdRegistry.RunAgreesWithList | source/main/cpp/stream_id_registry.cpp:101-127 | Over any run and any number of shards, stream ids are the places of the ids in order of first registering, and find gives them. |
| StreamIdRegistry.StreamIdsStay | source/main/cpp/stream_id_registry.cpp:101-127 | A stream id is never changed by later registers. |
| StreamIdRegistry.CountedFind | source/main/cpp/stream_id_registry.cpp:43 | With the count stored, after any registers, an id is found exactly if one of as many first places as its shard has ids holds it. |
| StreamIdRegistry.CountNeedsOneShard | source/main/cpp/stream_id_registry.cpp:43 | For every list of registers, repeated ids included, storing the count comes to the same registry as storing the place if and only if all ids hash to one shard. |
| StreamIdRegistry.CountedIdempotence | source/main/cpp/stream_id_registry.cpp:101-114 | With the count stored, in any state, registering an id again changes nothing and returns the same stream id if and only if it was found the first time or all ids there hash to its shard. |
| StreamIdRegistry.SecondShardMisses | source/main/cpp/stream_id_registry.cpp:43 | Of two ids in different shards the second is not found, and registering it again enters it again. |
| StreamIdRegistry.ShardByHighWord | source/main/cpp/stream_id_registry.cpp:101-118 | Ids below 2^32 share shard 0, and the upper word picks the shards one after the other, again from the first behind the last. |
| StreamIdRegistry.Shard.Grow | source/main/cpp/stream_id_registry.cpp:26-36 | Growing keeps the entries and makes room for one more. |
| StreamIdRegistry.Shard.FindPosition | source/main/cpp/stream_id_registry.cpp:38-40 | Finds the first entry whose id is not less. |
| StreamIdRegistry.Shard.Add | source/main/cpp/stream_id_registry.cpp:24-45 | Inserts the entry at its sorted place through growth and shifting. |
| StreamIdRegistry.Shard.Find | source/main/cpp/stream_id_registry.cpp:47-58 | Finds the first entry with the id, or -1. |
| StreamIdRegistry.StreamRegistry.constructor | source/main/cpp/stream_id_registry.cpp:72-85 | A registry starts empty with a power of two of shards. |
| StreamIdRegistry.StreamRegistry.FindStream | source/main/cpp/stream_id_registry.cpp:116-127 | Returns what the specification finds. |
| StreamIdRegistry.StreamRegistry.RegisterStream | source/main/cpp/stream_id_registry.cpp:101-114 | Returns what find gives and changes nothing if the id is found, and else enters it and returns the place it gets; the arrays become those of the registry with the id registered. |
| JsonScanner.FindsFirst | source/main/plugins/geekopen.cpp:19-24 | A scan stops at the first stop character and not before. |
| JsonScanner.TrimWhitespace | source/main/plugins/geekopen.cpp:19-24 | Skips exactly the whitespace. |
| JsonScanner.ReadValue | source/main/plugins/geekopen.cpp:114-135 | The value case records the span of a quoted or bare value and touches no other property. |
| JsonScanner.ParseJson | source/main/plugins/geekopen.cpp:36-153 | For every input the loop terminates and fills the array with the specified properties, leaving those behind the limit alone. |
| JsonScanner.StepSound | source/main/plugins/geekopen.cpp:51-151 | With a NUL behind the text, each turn keeps the spans found in bounds, ordered, and proper tokens. |
| JsonScanner.BehindMatters | source/main/plugins/geekopen.cpp:51-152 | What the scan finds depends on the character behind the text only if that is a quote, and then only in the end of a last value that is missing. |
| JsonScanner.AnyInputIsSafe | source/main/plugins/geekopen.cpp:36-153 | On any text there are at most max properties with disjoint, ordered spans; these lie in the text and delimit quoted keys and quoted or bare values if and only if the character behind it is no quote or no value is missing at the end. |
| JsonSafety.ValueMissingExactly | source/main/plugins/geekopen.cpp:51-151 | A value is missing at the end if and only if the text is: no brace, a brace, fewer than max members each with a comma, a key with its colon, and blanks up to the end. |
| JsonSafety.SafeExactly | source/main/plugins/geekopen.cpp:36-153 | All spans lie in the text and are proper tokens if and only if the character behind it is no quote, or the text is not of that form. |
| JsonSafety.SafeForAllTexts | source/main/plugins/geekopen.cpp:36-153 | With a given character behind them all texts are safe if and only if it is no quote, or no property is asked for. |
| JsonSafety.DanglingEndsInColon | source/main/plugins/geekopen.cpp:96-135 | A text of that form ends in blanks behind a colon, which is quick to look at. |
| JsonGrammar.ScanIsReading | source/main/plugins/geekopen.cpp:36-153 | On every text, cut off or not, the scan by states finds just the members that a reading of one after the other finds, but for the end of a missing last value with a quote behind the text. |
| JsonGrammar.MembersRead | source/main/plugins/geekopen.cpp:51-151 | From any place where a key is expected, with whatever was found before, the scan adds just the members read from there, as far as there is room. |
| JsonScanner.MissingValueOverruns | source/main/plugins/geekopen.cpp:114-135 | A text that ends behind a colon and a space: with a quote behind it, the value ends outside. |
| JsonRoundTrip.PadSkipped | source/main/plugins/geekopen.cpp:55-112 | In every phase but that of values the scanner skips what does not concern it. |
| JsonRoundTrip.KeyScanned | source/main/plugins/geekopen.cpp:66-112 | A printed key and its colon are scanned to the key's span. |
| JsonRoundTrip.ValueScanned | source/main/plugins/geekopen.cpp:114-135 | A printed value is scanned to its span, which starts at an opening quote if it has one. |
| JsonRoundTrip.FullScanned | source/main/plugins/geekopen.cpp:83-93 | With max properties read the scan ends at the next key. |
| JsonRoundTrip.MembersScanned | source/main/plugins/geekopen.cpp:51-151 | Any printed list of members is scanned to their spans, in order, as many as there is room for. |
| JsonRoundTrip.RoundTrip | source/main/plugins/geekopen.cpp:36-153 | Scanning the text of any document gives the spans of its members in order, truncated to max. |
| JsonRoundTrip.RoundTripContents | source/main/plugins/geekopen.cpp:36-153 | The i-th span shows the i-th key and value. |
| Framing.U32RoundTrip | source/server/cpp/unix_socket_server.cpp:195 | The big-endian reader reads what was written. |
| Framing.CutRoundTrip | source/server/cpp/unix_socket_server.cpp:221-251 | The bytes of any list of messages that fit the buffer are cut into those messages. |
| Framing.SentBytes | source/server/cpp/unix_socket_server.cpp:221-232 | A message begins with the bytes 55 43 4F 4E and the size of its payload, highest byte first, and ends in the payload. |
| Framing.DispatchedAreGenuine | source/server/cpp/unix_socket_server.cpp:221-251 | For any bytes and results of reads, only messages with those bytes and a size that fits the buffer are dispatched, each with the payload it announces. |
| Framing.ClosedExactly | source/server/cpp/unix_socket_server.cpp:197-253 | A connection stays open if and only if no read failed, none found the end of the stream, and none completed a header without those bytes or with a size that does not fit. |
| Framing.ReceiveSound | source/server/cpp/unix_socket_server.cpp:204-251 | Each read, whatever it returns, keeps the account of the stream's bytes. |
| Framing.DriveSound | source/server/cpp/unix_socket_server.cpp:197-253 | For any bytes and any results of the reads, the bytes read are the dispatched messages, each whole, the forgotten parts and the unfinished message, in order, and these fit the buffer. |
| Framing.SplitDoesNotMatter | source/server/cpp/unix_socket_server.cpp:197-253 | Without EAGAIN inside a message, the dispatched messages are those the stream would be cut into at once, however the reads split it. |
| Framing.ForgottenOnAgain | source/server/cpp/unix_socket_server.cpp:214-242 | Something read is forgotten if and only if a read says EAGAIN inside a message. |
| Framing.AllDelivered | source/server/cpp/unix_socket_server.cpp:197-253 | When a stream of messages has been read, exactly these were dispatched, in order, if and only if no read said EAGAIN inside a message. |
| Framing.AgainInsideMessage | source/server/cpp/unix_socket_server.cpp:214-215 | A message with EAGAIN behind its first byte never arrives. |
| Framing.Connection.Read | source/server/cpp/unix_socket_server.cpp:206-210 | One read puts the bytes it brings behind those in the buffer and advances the connection by one outcome. |
| Framing.Connection.Fill | source/server/cpp/unix_socket_server.cpp:203-219 | A read loop fills the buffer up to the size asked for, or ends as its last read has it, never writing past that size. |
| Framing.Connection.ReadMessage | source/server/cpp/unix_socket_server.cpp:200-251 | A turn of the loop dispatches one message, or ends with 0 on EAGAIN and with -1 when the connection is to be closed, dispatching none. |
| Framing.Connection.ReadFromClient | source/server/cpp/unix_socket_server.cpp:197-253 | A call dispatches exactly the messages of the account, for reads that return just what the script says, and returns 0 on EAGAIN and -1 exactly when the connection is to be closed. |
| Framing.ReceivedIsCut | source/server/cpp/unix_socket_server.cpp:248-251 | With EAGAIN only between messages, the callback has received what the bytes read so far are cut into. |
| ConnTable.ConnClosedGood | source/server/cpp/unix_socket_server.cpp:119-146 | Closing a connection keeps the tables and the queue in step through the swap-removal. |
| ConnTable.AcceptByGood | source/server/cpp/unix_socket_server.cpp:148-193 | Every outcome of accepting a client keeps them in step. |
| ConnTable.CreateByGood | source/server/cpp/unix_socket_server.cpp:296-379 | Every outcome of creating a server keeps them in step. |
| ConnTable.ServerClosedGood | source/server/cpp/unix_socket_server.cpp:381-430 | Closing a server keeps them in step. |
| ConnTable.EventClosedGood | source/server/cpp/unix_socket_server.cpp:504-542 | While every m_server is right, a close on an event finds its connection and keeps tables and queue in step. |
| ConnTable.EventsNeedPointers | source/server/cpp/unix_socket_server.cpp:504-542 | Every close that an event can bring keeps them in step if and only if every m_server is right. |
| ConnTable.RunGood | source/server/cpp/unix_socket_server.cpp:119-542 | Over every run with the repair, or in which no server with connections moves, the queue watches exactly the descriptors in live slots with their current slot, each descriptor obtained is live or was closed once, and every m_server is right. |
| ConnTable.RunGoodExactly | source/server/cpp/unix_socket_server.cpp:119-542 | As written, a run stays so, whatever events come in on the way, if and only if no server with connections moves in it. |
| ConnTable.OneSlotEach | source/server/cpp/unix_socket_server.cpp:119-193 | No descriptor is in two slots. |
| ConnTrace.ServersAreLive | source/server/cpp/unix_socket_server.cpp:296-430 | In every run the servers in the table are those that were created, with all working and room, and not closed since, each with a table of connections. |
| ConnTrace.ClientsAreLive | source/server/cpp/unix_socket_server.cpp:119-193 | In every run the connections of a server are its clients that were accepted, with all working and room, and not closed since, by themselves, on an event that finds them or with their server. |
| ConnTrace.DescriptorsAccounted | source/server/cpp/unix_socket_server.cpp:119-542 | Over every run with the repair, or in which no server with connections moves, a descriptor was closed as often as the operations got it, but for once while it is that of a live server or client. |
| ConnTable.PointersAfterClose | source/server/cpp/unix_socket_server.cpp:418-428 | Closing a server keeps every m_server right if and only if they are repaired, no server moves, or the one that does has no connections. |
| ConnTable.PointerGoesStale | source/server/cpp/unix_socket_server.cpp:418-428 | The second of two servers moves, and its connection still points to the old slot. |
| ConnTable.ClosedTwice | source/server/cpp/unix_socket_server.cpp:381-542 | Then an event closes that connection without finding it, and closing the server closes its descriptor again. |
| EventBatch.BatchKeeps | source/server/cpp/unix_socket_server.cpp:119-146 | Through a batch of closes and accepts, a connection whose own event is still to come stays open, in its slot or in one that an event has closed, and its slot holds it, a client accepted in the batch, or nothing. |
| EventBatch.EventActsOn | source/server/cpp/unix_socket_server.cpp:488-548 | An event of a batch acts on the connection it was raised for if and only if the server has had more connections than the slot's place ever since; it is ignored if and only if it has fewer now; else it acts on a client accepted in the batch. |
| EventBatch.ClosesAreHarmless | source/server/cpp/unix_socket_server.cpp:510-541 | In a batch in which nobody is accepted every event acts on its own connection or is ignored. |
| EventBatch.StaleEventHitsNewClient | source/server/cpp/unix_socket_server.cpp:488-548 | Close the first of two or more connections, then accept a client: the event of the last one now names the client. |
| ConnTable.EventLoop.CloseConnAt | source/server/cpp/unix_socket_server.cpp:119-146 | The statements of close_conn leave the tables and the queue as specified. |
| ConnTable.EventLoop.AcceptClient | source/server/cpp/unix_socket_server.cpp:150-192 | A turn of the accept loop enters the client behind those of its server and watches it exactly if all works and there is room; else the tables and the queue are as before and its descriptor is closed. |
| ConnTable.EventLoop.ServerCreate | source/server/cpp/unix_socket_server.cpp:296-379 | Returns an id exactly if all works and there is room: then just a server with that id, new, which listens on the descriptor, has no clients and is watched was entered; else -1, with the tables and the queue as before and the descriptor closed. |
| ConnTable.EventLoop.FindServer | source/server/cpp/unix_socket_server.cpp:282-294 | Finds the server's slot exactly if there is a server with the id. |
| ConnTable.EventLoop.ServerClose | source/server/cpp/unix_socket_server.cpp:381-430 | Removes the server with the id, its table and all its connections, and no other, or reports that there is none. |
| ConnTable.EventLoop.FindSlot | source/server/cpp/unix_socket_server.cpp:520-528 | The search of the server's connections finds the one the event names exactly if it is there. |
| ConnTable.EventLoop.CloseOnEvent | source/server/cpp/unix_socket_server.cpp:504-542 | The statements of the event loop close the connection as specified, found or not. |
| ConnTable.EventLoop.ClientClose | source/server/cpp/unix_socket_server.cpp:614-637 | Closes the connection with the descriptor, or reports that the server has none with it. |
| ImageAssembly.ArrivedBytesRight | source/main/plugins/imagepacket.cpp:61-62 | Whatever parts arrived, in any order and however often, each byte held by one is the image's and every other is as before. |
| ImageAssembly.ImageWhenCovered | source/main/plugins/imagepacket.cpp:61-62 | The buffer is the image, whatever it held before, if and only if the parts cover it. |
| ImageAssembly.CoveredWithTheLast | source/main/plugins/imagepacket.cpp:64-66 | As the blocks of a tiling arrive, the image is covered with the last of them and not before. |
| ImageAssembly.TilesInAnyOrder | source/main/plugins/imagepacket.cpp:61-66 | A tiling stays one in any order of arrival. |
| ImageAssembly.CompleteMeansNoRepeats | source/main/plugins/imagepacket.cpp:64-66 | When as many blocks have arrived as the image has, it is covered if and only if none came twice. |
| ImageAssembly.RepeatedTile | source/main/plugins/imagepacket.cpp:65-66 | An image of two blocks of which the first comes twice: the count is reached without the second. |
| ImageAssembly.Image.Receive | source/main/plugins/imagepacket.cpp:61-66 | Copies the block to its place and reports completion exactly when the count is reached. |
| ImageAssembly.ImageProgress | source/main/plugins/imagepacket.cpp:61-66 | For every tiling and order of arrival: completion is reported exactly when the image is covered, the buffer then is the image, and before that each byte that arrived is right. |

## Left out

Of the job manager (`source/main/cpp/job_manager.cpp`):

- Channels are all made before the workers start; making one later (`init_channel`) is not modelled, nor
  are failed allocations and `uv_thread_join`, which is the state with every worker exited.
- A channel number is a valid one: the code does not check it.
- The job functions are opaque and have no effect on the pool.

Of the channel (`source/main/cpp/channel.cpp`):

- Capacity is positive: with 0 the loop that links the nodes would run to the largest `size_t`.
- PopNowait: its flag is not in the code, where a popped NULL looks like an empty channel.
- JobPool and ChannelProtocol state what sleepers leave awake; that an awake thread is scheduled is the
  operating system's part.

Of the streams (`source/main/cpp/stream_manager.cpp`):

- WriteU8: requires room for the item, because it does not look for it and would write behind the mapped file.
- WriteU16: requires room as well.
- WriteU32: requires room as well.
- WriteData: leaves out the sizes that the test accepts although there is no room, since that write would leave
  the mapped file; whether there are any, AcceptsExactly says. Sizes that wrap and fit are in.
- The header's place in the first 64 bytes of the file, and its other fields: writing starts at a cursor at
  or behind them. The mapped file, stream creation and the unimplemented `stream_read` and iterators.
- Turn: requires a free slot in the active array if a request has arrived; the thread does not look at its
  capacity. The results of creating stream files are a parameter of the round. Late readers read at the ends of
  rounds.
- The parsing of the mappings file: the mappings in force in a round are arbitrary.

Of the mapping index (`source/main/cpp/stream_request.cpp`):

- Merge: requires room for all loaded mappings, which the code does not look for, and index memory whose entries
  lie within the arrays.
- LoadedMappings.Load: takes the loaded mappings as given; line 261 reads them from a job's second argument, which
  nobody sets. The retry time and the job that parses the file are not modelled.
- ZerosMergeRight: is exact for index memory of zeros; of other memory NoMemoryIsRight and FoundIfNamed speak.
- The library's sort, whose source is not part of this model: an insertion sort stands for it.
- The free, active and done request slots: the code never fills the free list.

Of the registry (`source/main/cpp/stream_id_registry.cpp`):

- RegisterStream: requires, for an id that is not found, a free place in the arrays, at most 32767 ids and fewer
  than 16384 of them in the shard, the limits of the 16-bit fields; the code checks none of these.
- The masking of the upper word by a power of two minus one is written as a remainder. Shards start empty,
  though the code does not construct them.

Of the scanner (`source/main/plugins/geekopen.cpp`):

- What is done with the spans (numbers, units, user interface) is not modelled.

Of the socket server (`source/server/cpp/unix_socket_server.cpp`):

- Connection: the receive buffer has at least 32 bytes; with fewer, the read of the header at line 206 would overrun it,
  and the limit on payloads would wrap.
- A read's results are an arbitrary sequence, after which there is no more data; end of file is a read at
  the end of the stream. Sockets, kqueue and their errors other than those are parameters.
- The tables are sequences of the live slots: the zeroed slots behind them are not modelled. A table of
  connections is named by the id of the server it was made for, since it moves with the server.
- EventActsOn: speaks of one server's events, with no server created or closed within the batch, each connection
  having one event in it. A descriptor that is still watched is not accepted again.
- The callbacks reached through m_server, sending and broadcast are not modelled. The buffers of connections are left
  out of the tables.

Of the image packets (`source/main/plugins/imagepacket.cpp`):

- The image object is one that persists between packets and starts with a count of 0; the code makes it in a
  variable that hides the one it then uses. The format of the header and the memory of the stream are left out.
- Receive: requires the block to lie in the image, which the code does not check.

The pools of indices (`conman.cpp`, `uv_*_pool.cpp`) and the tables of units and types (`value_unit.cpp`,
`user_types.cpp`) are not part of this model.
