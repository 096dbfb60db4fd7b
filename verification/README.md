# Animation server and client: verified model

A Dafny 4.11 model of a client/server animation program written in C. Clients connect over a pair of FIFOs
after a signal handshake, send request lines, and get reply lines back. The server is one main thread, which
owns the client registry, the poll set and both self-pipes, and a pool of worker threads fed by a task queue.

`dafny verify dfyconfig.toml` checks everything.

## How it is laid out

Two layers, joined by shared specification functions.

*In memory.* Classes with the fields of the C structures, each method proved to change them as a
specification function says, and loops proved against an environment that answers as it likes.

- `ClientRegistry` (with `RegistrySpec`): the intrusive doubly linked list of counted client records.
- `TaskQueue`: the singly linked FIFO with its tail pointer and counter.
- `PollSlots` (with `SlotSpec`): the two parallel arrays, swap-removal, and the client sweep over them.
- `ObjectTable`: the growing arrays of canvases, sprites and placements, with tombstones.
- `Whitespace`: the in-place clean-up of a string.
- `Fifo`: the transfer loops, against any sequence of short transfers and errors.
- `Transport`, `ReplyCodec`: request lines and reply lines, end to end.
- `Commands`, `TypedRequests`, `ClientTurn`: the main thread's dispatch, the way of a typed line to it, and the batch of
  requests it handles in one client's turn.
- `Arguments`, `ArgumentErrors`, `UserFile`, `WorkerTasks`: how a worker reads a request, which requests it turns down,
  the look-up of a login, and the workers' switch over the object tables.
- `WorkerReplies`, `ReplyMessages`: what a client can rely on in its replies, and what it reads on its terminal.

*Over whole runs.* Step systems with an inductive invariant, where every interleaving is a run.

- `Lifetime`, `LifetimeProofs`, `LifetimeSteps`, `LifetimeEffects`, `LifetimeRuns`, `LifetimeLeaks`, `LifetimeSafety`,
  `LifetimeWitnesses`: the life of a client record across the registry, the poll set, the queue, the workers and
  the result pipe. A state of the registry is the same `Registry` value that `ClientRegistry.View` computes, and its
  steps are the same functions; the poll set uses the `RemoveFd` that `PollSlots.Remove` implements, and requests the
  `Reaction` that `HandleCommand` computes.
- `WorkerPool`: the condition-variable protocol, with RUNNING cleared at any moment, and shutdown.
- `Handshake`: the client's `perform_handshake` against the worker's HANDSHAKE case.

## What is assumed of the environment

- `open` returns a descriptor that is not open; a write of at most PIPE_BUF bytes happens whole or not at all.
- From some point on, a transfer loop is no longer interrupted (EINTR answers are finite); nothing else is
  assumed about system calls.
- A blocking open of a FIFO counts as present for the other side while it waits. One handshake is outstanding
  for a pid; FIFOs left over from an earlier session may exist, but nobody has them open.
- Each call on an object table is atomic. (The C has no lock there.)
- A kernel that hands over what a pipe holds (`Fifo.Prompt`), or accepts every write (`Fifo.Willing`), is asked for only
  where a contract says so.
- Memory for a client, a queued task, a poll slot or a larger object table may or may not be found: both outcomes are
  modelled.
- The lifetime and the shutdown theorems hold for a pool of any size.

## Where the code does less than it seems to

These are results about the code as it stands; each has its exact condition or a witness.

- The main loop drops its reference before it uses the client. An AUTH_OK or RPC_DONE result is safe exactly
  when the client is still linked or something else holds it; an AUTH_NO or AUTH_UN result exactly when it is
  still linked (`Guard`, `StepKeepsIffGuarded`). `DepartedClientFaults` gives, for every request that is
  answered, a run that breaks this: the client hangs up while a worker is busy with its only request.
- A barrier task posts no result, a failed enqueue is ignored, and a result can find the pipe full. Each loses the
  reference it carried for good: the client is never freed afterwards (`StrandedForGood`), and once nothing else names
  it, it is allocated exactly because it is linked or a reference to it was lost (`QuietClientLeaksIffStranded`).
  `LostReferenceLeaks` and `FailedEnqueueLeaks` are runs to such a leak.
- More than that: as long as the guards hold, a client is freed only by the step that takes it off the list, and only
  if nothing outside holds it then (`FreedIffLeavesUnheld`). One that departs while anything holds it is never freed
  (`DepartedIsNeverFreed`), so the release at the head of a result handler never safely frees anybody. The other way
  round, runs in which nobody leaves anything outstanding behind need no guard at all (`OrderlyRunsAreSafe`).
- A client's alarm can go off between being armed and the open it guards. Then the open can block for ever
  (`EarlyAlarmStrandsClient`); `RestMeansReturned` shows that this is the only way.
- The ids of `destroy_canvas`, `place_sprite` and `set_animation_params` are read as longs and looked up as ints
  without a range check. `destroy_canvas 4294967296` destroys canvas 0 (`WideIdDestroysAnother`); a request works on what it names
  exactly when its ids are ints or the cut ids lead nowhere (`DestroysTheNamedIff`, `WorksOnTheNamedIff`).
- A sprite that was destroyed is reported as "Data write failed" when the library answers -1 (`MessageTellsSuccess`,
  `ChangeHeard`).
- A request's first word typed on its own reaches the server without the blank its keyword ends with, and is ignored:
  `barrier` does nothing unless something is typed after it (`BareVerbIsIgnored`).
- A line of the user file longer than its buffer is read in pieces: with one character too many, the last digit of the
  balance is lost (`LongListingIsCut`).
- The frame loop of a movie request counts in an int up to and including the last frame, and overflows when that is
  the largest int (`WriteFrames`, `LastFrameOverruns`).
- A table that has to grow and finds no memory is lost with all its entries unless it was empty (`Table.Insert`,
  `FailureChangesNothingUnlessLost`).
- A text of 127 characters leaves no room for its newline in the sender's buffer, but the server's read stops
  at 127 characters by itself, so it arrives intact: the tight limit for one word is 127 (`WordFitsExactly`).
  The login request goes out from a larger buffer, and there a 127-character text does leave an empty record
  behind it (`LoginRecords`).
- The receiver's variables start at 0, so it is the number of fields read, and not INT_MIN, that tells an absent
  value. The round trip recovers the triple from the fields.

## Model

| member | source | states |
|---|---|---|
| LifetimeSteps.StepKeepsIffGuarded | server/src/animate_server.c:79-355 | from any state that keeps the ledger, the poll set, the descriptors and freed-once, any step of the main loop or a worker neither touches freed memory nor breaks one of them if and only if its guard holds; only AUTH and RPC_DONE results have a guard |
| LifetimeSteps.ReplyIffHeld | server/src/animate_server.c:199-293 | an AUTH_OK or RPC_DONE handler finds its client allocated after its own release exactly when the client is linked or held by a task, another result or a lost reference |
| LifetimeSteps.RejectIffLinked | server/src/animate_server.c:226-264 | an AUTH_NO or AUTH_UN handler keeps every agreement exactly when its client is still linked |
| LifetimeSteps.RejectUnlinked | server/src/animate_server.c:241-241 | rejecting a client that has already left the list gives back a reference nobody lent: the ledger is broken, or memory that is no longer owned is used |
| LifetimeSteps.AdmitKeeps | server/src/animate_server.c:176-197 | a finished handshake leaves registry, poll set and descriptors in agreement on all three paths: registered, no memory for the client, no poll slot |
| LifetimeSteps.SaysKeeps | server/src/commands.c:8-150 | whatever line a linked client sends, and whether or not the task can be queued, all agreements are kept and the client is not refused a reference |
| LifetimeSteps.DropSlotKeeps | server/src/animate_server.c:350-354 | dropping a poll slot by descriptor and removing its client keeps all agreements; nobody else's slot or descriptor goes |
| LifetimeSteps.OpenedKeeps | server/src/threadpool.c:116-157 | a handshake that opened two fresh descriptors owns them until its result is read, whether or not the result could be posted |
| LifetimeSteps.FinishedKeeps | server/src/threadpool.c:170-1185 | a finished client task moves its reference into its result, or into the lost ones for a barrier or a full pipe |
| LifetimeEffects.HangUpEffects | server/src/animate_server.c:301-355 | when the client in slot i hangs up, the slots are the old ones less exactly slot i, that slot's client is off the list with one reference less, dead or freed with exactly its own two descriptors closed, and every other client, slot, task and result is as before |
| LifetimeEffects.DisconnectEffects | server/src/commands.c:29-32 | a Disconnect does the same to the client of the slot it came from, and to nobody else |
| LifetimeEffects.AskingEffects | server/src/commands.c:34-41 | a request takes one reference to the client of its slot and queues one task of its kind for that client, or loses the reference when there is no memory; nothing else changes |
| LifetimeEffects.IdleLineEffects | server/src/commands.c:8-150 | any other line changes nothing |
| LifetimeEffects.HandshakeEffects | server/src/animate_server.c:176-197 | a finished handshake gets a client with its pid and descriptors at the front of the list and a slot on its read end; without memory for either, both its descriptors are closed and everything else is as before |
| LifetimeEffects.RequestEffects | server/src/animate_server.c:79-125 | a handshake request queues one handshake task for its pid, or nothing without memory, and no client changes |
| LifetimeEffects.AnswerEffects | server/src/animate_server.c:199-293 | an RPC_DONE or AUTH_OK result takes one reference from its own client, AUTH_OK logs it in, and nothing else changes |
| LifetimeEffects.RejectEffects | server/src/animate_server.c:226-264 | an AUTH_NO or AUTH_UN result takes one reference from its own client and makes that client leave, and nobody else |
| LifetimeEffects.TakeEffects | server/src/task.c:100-119 | a worker takes the oldest task, and no client changes |
| LifetimeEffects.FinishEffects | server/src/threadpool.c:170-1185 | a finished task posts its verdict for its own client, or loses that client's reference for a barrier or a full pipe; all other tasks and all clients stay |
| LifetimeEffects.OpenEffects | server/src/threadpool.c:116-160 | a handshake that succeeds opens its two descriptors for a new connection and posts them with its own pid |
| LifetimeEffects.OpenFailedEffects | server/src/threadpool.c:159-167 | a handshake that fails leaves nothing behind but the finished task |
| LifetimeEffects.EverythingCanHappen | server/src/animate_server.c:79-355 | nothing is ruled out: every linked client can speak and hang up, every task can be taken and can finish with any verdict of its kind, every result can be read |
| LifetimeProofs.ReleaseKeeps | server/src/client_registry.c:67-84 | giving back a reference frees the client and closes its two descriptors exactly when no holder is left, and restores the ledger |
| LifetimeProofs.RemoveKeeps | server/src/client_registry.c:154-162 | removing a linked client gives back the registry's reference only; it stays allocated exactly while a reference is outside |
| LifetimeRuns.GuardedRunsKeepInv | server/src/client_registry.c:55-84 | every state of every run whose guards hold keeps all agreements |
| LifetimeRuns.GuardedRunsContinue | server/src/animate_server.c:199-293 | after any such run the next step is safe if and only if its guard holds |
| LifetimeRuns.RefcountIsShares | server/src/client_registry.c:55-84 | at every moment of a guarded run the refcount is the registry's share plus queued tasks, tasks in workers, unread results and lost references; dead exactly when unlinked |
| LifetimeRuns.NamedIsAllocated | server/src/client_registry.c:67-84 | at every moment of a guarded run a client linked, queued, in a worker or named by an unread result is allocated, was never freed, and owns its two open descriptors |
| LifetimeRuns.SurvivesReleaseIffHeld | server/src/animate_server.c:199-293 | whenever a guarded run reads a result, after the opening release the client is allocated if and only if it is linked or one of the four other places holds it; otherwise exactly its two descriptors were closed |
| LifetimeLeaks.QuietClientLeaksIffStranded | server/src/client_registry.c:67-84 | a client that nothing queued, running or unread names is allocated exactly when it is linked or a reference to it was lost, and its refcount counts just these |
| LifetimeLeaks.StrandedForGood | server/src/threadpool.c:1178-1181 | from the moment a reference to a client is lost, in a barrier, a failed enqueue or a full pipe, the client stays allocated and is never freed, for the rest of a guarded run |
| LifetimeLeaks.FreedIffLeavesUnheld | server/src/client_registry.c:79-83 | a guarded step frees a client if and only if it takes it off the list and nothing outside holds it then |
| LifetimeLeaks.DepartedIsNeverFreed | server/src/client_registry.c:79-83 | a client still allocated after leaving the list is never freed in the rest of a guarded run |
| LifetimeSafety.OrderlyRunsAreSafe | server/src/animate_server.c:199-293 | if every client that left in a run left nothing outstanding behind, whatever happens next meets its guard, touches no freed memory and keeps every agreement; no guard is assumed |
| LifetimeSafety.OrderlyRunsLeakNobody | server/src/client_registry.c:67-84 | in such a run the allocated clients are the linked ones at every moment |
| LifetimeWitnesses.LostReferenceLeaks | server/src/threadpool.c:1178-1181 | a guarded run from the start to a server at rest with a dead, unlinked, allocated client, for a barrier and for any other request whose result finds the pipe full |
| LifetimeWitnesses.FailedEnqueueLeaks | server/src/commands.c:25-25 | the same, for any request whose task cannot be queued |
| LifetimeRuns.SlotsAreTheLinkedClients | server/src/animate_server.c:176-264 | at every moment of a guarded run slots 0 and 1 are the open self-pipes, and slots from 2 up hold exactly the linked clients, each once, polling that client's own open read end |
| LifetimeRuns.FreedForGood | server/src/client_registry.c:79-83 | a client freed in a guarded run was freed once and is never allocated or named again |
| LifetimeRuns.LoggedInIffAuthorised | server/src/animate_server.c:219-219 | at every step of a guarded run, a client that stays allocated is logged in afterwards exactly when it was before or the step read its own AUTH_OK result |
| LifetimeWitnesses.DepartedClientFaults | server/src/animate_server.c:266-293 | for every answered request there is a run from the start after which reading the result uses freed memory |
| Commands.SelectsOne | server/src/commands.c:13-146 | no line starts with two of the keywords |
| Commands.MeaningOf | server/src/commands.c:13-146 | the keyword a line starts with decides its meaning |
| Commands.WhatALineDoes | server/src/commands.c:8-150 | a task of a kind is queued, with the rest of the line, exactly when the client is alive and the line asks for it; a client is removed exactly for a Disconnect or a request when dead; any other line does nothing |
| Commands.TestRpc | server/src/commands.c:35-41 | one test of the chain acts exactly when the line's meaning is its own kind, acquiring before it queues |
| Commands.HandleCommand | server/src/commands.c:8-150 | the chain of independent tests does what the line means, and has exactly the effects told by `Does`: at most one acquire and one enqueue, in that order, for one task |
| TypedRequests.TypedRequestIsUnderstood | server/src/commands.c:13-146 | a request typed on a line that fits the buffer, with any whitespace around its words, is read as one record and taken for the task its first word names, with the other words as its request |
| TypedRequests.DisconnectIsUnderstood | client/src/sender.c:23-28 | a typed Disconnect is the last record the server reads, whatever is typed after it, and the server removes the client for it |
| TypedRequests.BareVerbIsIgnored | server/src/commands.c:140-140 | a request's first word typed on its own is taken for nothing |
| WorkerTasks.Serve | server/src/threadpool.c:94-1185 | on every way out of a client task but an overrun frame loop exactly one result has been posted, by that way out itself, none for a barrier; which one, which library calls were made on which objects, and what is left of the three object tables, is told by the request text, the tables and the environment's answers; for a login it is AUTH_OK exactly for a user the file lists with money, with that balance and the first 31 characters of the name, AUTH_NO exactly for one listed without, AUTH_UN exactly for one not listed |
| WorkerTasks.Routine | server/src/threadpool.c:86-1189 | over any sequence of tasks, while there is memory for larger tables, what a worker has posted, which calls it has made and what the tables hold is what the finished tasks come to one after another; the results are one for one and in order replies, admissions, rejections for want of money and for an unknown name, as each task is due |
| UserFile.GetBalance | server/src/auth.c:23-55 | the loop over the file gives the account of the first line that has the name, whitespace behind it and a number |
| UserFile.LineTells | server/src/auth.c:36-42 | a line of a name and a balance speaks of that name and of no other, a longer or shorter one included |
| UserFile.FirstListingDecides | server/src/auth.c:23-55 | in any file of names and balances that fit the line buffer, whatever is asked for, the first listing under exactly that name decides, and nobody else is listed |
| UserFile.LongListingIsCut | server/src/auth.c:31-51 | a listing one character too long is read without the last digit of its balance |
| WorkerReplies.LoginByListing | server/src/threadpool.c:170-190 | a login against such a file is answered by the first listing under the name that was sent |
| WorkerTasks.Generate | server/src/threadpool.c:963-1096 | each of the movie case's nine ways out posts one result, that of its first failing check, unless its frame loop overruns, when none is posted |
| WorkerTasks.WriteFrames | server/src/threadpool.c:1035-1048 | the frame loop posts the failure itself and leaves the case at the first frame that is not written, and posts nothing otherwise; it gets through exactly when every frame is written and the last one is not the largest int, in which case its index overflows |
| WorkerTasks.FindUser | server/src/threadpool.c:1142-1151 | the walk along the clients finds the first one logged in under the name, or none exactly when there is none |
| WorkerReplies.LastFrameOverruns | server/src/threadpool.c:1035-1048 | any sensible movie request whose last frame is the largest int ends in the overrun when its frames are written |
| WorkerReplies.ReplyTellsSuccess | server/src/threadpool.c:192-1176 | with the kind of request known, the reply tells whether the task was carried out: first value 0, or three zeros for a movie |
| WorkerReplies.MessageTellsSuccess | client/src/receiver.c:51-105 | from the bytes of the reply alone, the client prints success exactly when the task was carried out, except for a destroyed sprite whose destruction the library answers with -1, which is printed as a failed data write |
| WorkerReplies.FailureChangesNothingUnlessLost | server/src/threadpool.c:192-1176 | a task that reports a failure leaves every object table as it was if and only if it loses none: it loses one exactly when it is a create that has to grow a table which is not empty and finds no memory |
| WorkerReplies.CreateReplyNamesTheObject | server/src/threadpool.c:192-624 | a create reply's id is that of a new last entry holding the object made, for this client, and the other entries and tables are as they were; a failed create leaves the tables as they were, or has lost the one it could not grow |
| WorkerReplies.DestroyByTypedId | server/src/threadpool.c:257-309 | an id typed into a destroy request destroys exactly the object it leads to and makes it lead nowhere, the other entries and tables as they were; an id that leads nowhere is refused and changes nothing |
| WorkerReplies.MoveByTypedId | server/src/threadpool.c:626-844 | an id typed into a request to move a placement makes that one library call on exactly that placement, or is refused |
| WorkerReplies.ShareByTypedWords | server/src/threadpool.c:1098-1176 | an id and a name typed into a request to share are carried out exactly when that canvas is there, somebody of that name is logged in and there is room |
| WorkerReplies.GivenIdDestroysItsObject | server/src/threadpool.c:192-309 | the id given out for an object, typed back after any run of calls on its table, destroys that object and no other, or is refused because it is gone |
| WorkerReplies.CanvasIdIsNarrowed | server/src/threadpool.c:281-309 | a destroy request for canvas n acts on n cut to 32 bits |
| WorkerReplies.DestroysTheNamedIff | server/src/threadpool.c:281-309 | for every long n and every table of at most the largest int entries, it destroys the canvas it names, or refuses when that is not there, if and only if n is an int or no live canvas has n cut to 32 bits |
| WorkerReplies.WorksOnTheNamedIff | server/src/threadpool.c:549-592 | place, set-animation and destroy-canvas requests make their library call on the objects they name, or find them missing when they are, if and only if all their ids are ints or the cut ids do not all lead to an object |
| WorkerReplies.WideIdDestroysAnother | server/src/threadpool.c:281-309 | every canvas is also destroyed by an id that no canvas has |
| ReplyMessages.HeardCode | client/src/receiver.c:51-105 | from its bytes, whatever follows them, each result the workers post is printed as its own message |
| ReplyMessages.RefusedHeard | server/src/threadpool.c:192-1176 | a malformed request is heard as RPC failed, one with a bad value as a value error, and one that names a missing object as RPC failed for destroy_canvas and destroy_sprite and as a value error for all others |
| ReplyMessages.CreateHeard | server/src/threadpool.c:192-624 | a request that makes an object is heard as Success with the size of the table it went to as its number, or as an internal error when the library or the table fails |
| ReplyMessages.ShareHeard | server/src/threadpool.c:1098-1176 | a request to share a canvas that is there is heard as a value error when nobody of that name is logged in, an internal error when there is no room, and otherwise as Success |
| ReplyMessages.ChangeHeard | server/src/threadpool.c:257-961 | a request to change or destroy an object that is there is heard as Success; destroying a sprite as Success with what the library returned, or as a failed write when that is -1 |
| ReplyMessages.MovieHeard | server/src/threadpool.c:963-1096 | which failure of a movie request is heard as which message, the first one deciding |
| Arguments.NumbersTypedBack | server/src/threadpool.c:64-84 | numbers in the range their fields accept, typed with single blanks between them, are read back as they are, for every kind of request |
| Arguments.MovieTypedBack | server/src/threadpool.c:978-996 | the five arguments of a movie request typed in full are read back as they were typed, exactly when the frames are in order and the rate is positive; otherwise the request is refused |
| ArgumentErrors.ParsesIffNumeral | server/src/threadpool.c:64-84 | a token is accepted as a number exactly when it is whitespace, an optional sign and one or more digits, with nothing behind them |
| ArgumentErrors.NumeralParses | server/src/threadpool.c:64-84 | an accepted token is its decimal value, cut to the range of a long, or for strtoul taken modulo its range when negative |
| ArgumentErrors.WhatIsParsed | server/src/threadpool.c:204-229 | for every kind and every text: malformed exactly when the text has fewer runs of non-blanks than the case has arguments, a bad value exactly when one of the first few is turned down by its field, and otherwise those runs are the arguments |
| ArgumentErrors.RunsAreWords | server/src/threadpool.c:209-212 | where blanks are the only whitespace, the runs are the words of the text |
| ArgumentErrors.TakenAsTyped | server/src/threadpool.c:192-961 | how many numbers of which range each request takes as they are |
| WorkerPool.StepKeeps | server/src/task.c:70-120 | every interleaving of enqueue, signal, wait, stolen and spurious wake-up, stop and broadcast keeps the protocol's invariant |
| WorkerPool.RunKeepsWakeups | server/src/task.c:90-120 | a worker's own steps never leave more queued tasks than workers on their way to them while somebody sleeps |
| WorkerPool.NeverAllAsleep | server/src/task.c:95-98 | while RUNNING, a non-empty queue never meets a pool that is all asleep or about to sleep |
| WorkerPool.RecordsAreEvents | server/src/task.c:73-83 | in every state of every run, the jobs recorded as queued are those of the enqueue events so far, in order, RUNNING is clear exactly after a stop, and the broadcast has been made exactly after its event |
| WorkerPool.WhoMoves | server/src/task.c:70-120 | an enqueue adds its job at the end and wakes exactly the worker it signals, a broadcast wakes exactly the sleepers, a spurious wake-up its own worker, and a worker's step moves no other worker |
| WorkerPool.EverybodyCanAct | server/src/task.c:70-120 | nobody is kept from acting but by the lock: while it is free, a job can be queued, every worker that is up can move, and after a stop the broadcast can be made; while it is held, its holder can move |
| WorkerPool.EveryJobOnce | server/src/task.c:70-120 | in every state of every run, the jobs of the enqueue events so far are, in order, those taken and those in the queue, and each is queued, with one worker, or finished, as many times as it was queued |
| WorkerPool.OneWorkerKeepsOrder | server/src/threadpool.c:86-1185 | a pool of one attempts its results in the order of the enqueue events |
| WorkerPool.WorkNotStuck | server/src/task.c:90-120 | while RUNNING, a queued task always finds a worker that can move |
| WorkerPool.WorkCompletes | server/src/task.c:70-120 | from any moment of a run while RUNNING after which only workers move, they have a bounded number of steps left, and when they have no more, the queue is empty and the jobs finished are those of all enqueue events |
| WorkerPool.NobodySleepsAfterBroadcast | server/src/threadpool.c:1228-1230 | once the locked broadcast has run no worker sleeps or is about to, wherever RUNNING was cleared |
| WorkerPool.ShutdownProgress | server/src/threadpool.c:1223-1237 | after the broadcast each possible step brings one worker nearer its exit |
| WorkerPool.ShutdownNotStuck | server/src/threadpool.c:1223-1237 | after the broadcast some worker can move unless all have exited |
| WorkerPool.ShutdownCompletes | server/src/threadpool.c:1232-1234 | all joins complete: at most four steps for each worker, and a run that cannot go on has every worker gone |
| WorkerPool.ShutdownReachesAll | server/src/threadpool.c:1223-1237 | in every run of a server with a pool of some size, at most four steps for each worker follow the broadcast, and a run that cannot go on has every worker of the pool gone |
| Handshake.StepKeeps | client/src/c_helper.c:155-229 | every interleaving of client, worker and signals keeps the handshake's invariant and lowers a measure |
| Handshake.SuccessMeansBothEnds | client/src/c_helper.c:186-214 | SUCCESS means the worker has opened both ends and is past every exit to its failure label, and no alarm is left to go off |
| Handshake.MetMeansSuccess | server/src/threadpool.c:127-160 | from any reachable state in which the client is blocked in its first open and the worker has a try left, a run without failed calls and signals has exactly five more steps, in any order, and then the worker has posted and the client has returned SUCCESS |
| Handshake.SuccessAtAnyTry | server/src/threadpool.c:127-160 | for each of the eleven tries there is a run from the start that succeeds at it, with SIGUSR2 its only signal and no call failing |
| Handshake.TriesRunOut | server/src/threadpool.c:133-157 | there is such a run in which a client that is slow to open finds the worker giving up after eleven tries |
| Handshake.WhenTheWorkerGivesUp | server/src/threadpool.c:100-157 | the worker goes to its failure label exactly when a call of its own fails or its last try finds no reader |
| Handshake.WhatTheClientReturns | client/src/c_helper.c:155-229 | which state and call each result code of the client comes from, both ways |
| Handshake.WhatASignalReturns | client/src/c_helper.c:173-214 | a signal ends the client's call exactly when it cuts short an open, always with PIPE_FAIL; otherwise the client goes on with the stage the signal stands for |
| Handshake.SignalsCanCome | client/src/c_helper.c:155-213 | from its call to its return, any signal that is set can reach the client, and the main loop can drop what was posted |
| Handshake.NoAnswerTimesOut | client/src/c_helper.c:177-190 | a client that waits for an answer always has its alarm to go off, and then returns TIMEDOUT |
| Handshake.NoFifosLeft | server/src/threadpool.c:159-167 | a handshake that is given up or dropped leaves neither FIFO behind |
| Handshake.OpensMeet | server/src/threadpool.c:121-131 | a blocked open returns exactly when the worker has the other end of that very FIFO; one left over never gets a partner |
| Handshake.AlarmsAreCancelled | client/src/c_helper.c:185-213 | the alarm for the answer is cancelled before the one for the opens is set, and that one when both opens are done |
| Handshake.ConnectedMeansFifosMade | server/src/threadpool.c:107-119 | the client can see CONNECTED only after both FIFOs were made, and they stand until the worker gives up or the main loop drops them |
| Handshake.HandshakeEnds | server/src/threadpool.c:121-153 | the opposite open orders cannot deadlock: at most 54 events besides shutdown signals, in any order |
| Handshake.LostRequestFails | server/src/animate_server.c:79-125 | a handshake request that is lost on its way never looks like a success, and the client returns an error unless its alarm went off too early |
| Handshake.RestMeansReturned | client/src/c_helper.c:190-214 | a handshake at rest has a finished worker and a client that has returned, unless its alarm went off before it blocked |
| Handshake.EarlyAlarmStrandsClient | client/src/c_helper.c:194-196 | a run in which the alarm goes off between being armed and the open, and the client stays blocked for ever |
| Handshake.OpenWriteEnd | server/src/threadpool.c:127-153 | against any answers, at most 11 opens; it stops at the first answer other than a missing reader and has a descriptor exactly when that answer is one |
| RegistrySpec.WithoutRemovesOne | server/src/client_registry.c:120-152 | unlinking takes out exactly the named client wherever it sits and keeps the order of the rest |
| RegistrySpec.WithoutAbsent | server/src/client_registry.c:132-135 | unlinking a client that is not in the list changes nothing |
| ClientRegistry.ClientRegistry.Insert | server/src/client_registry.c:21-53 | a new client with refcount 1 goes to the front of a well-formed doubly linked list; without memory nothing changes |
| ClientRegistry.ClientRegistry.Acquire | server/src/client_registry.c:55-65 | one more reference, or FAIL and no change for a dead client |
| ClientRegistry.ClientRegistry.Release | server/src/client_registry.c:67-84 | one reference less; the last one of a dead client frees it and closes its two descriptors |
| ClientRegistry.ClientRegistry.Find | server/src/client_registry.c:127-135 | the walk finds the client's own node, or null exactly when it is not linked |
| ClientRegistry.ClientRegistry.Splice | server/src/client_registry.c:137-151 | the node leaves the list from any position; next and prev stay inverse and the counter is the length |
| ClientRegistry.ClientRegistry.Unlink | server/src/client_registry.c:120-152 | refines removal from the sequence of clients; an absent client is a no-op |
| ClientRegistry.ClientRegistry.MarkDead | server/src/client_registry.c:86-118 | the client is dead; in each table an entry whose owner is somebody else, or nobody, is as it was, one whose owner is the client has no handle any more, and the handles destroyed are exactly the live ones among these; no other client changes |
| ClientRegistry.ClientRegistry.Remove | server/src/client_registry.c:154-162 | mark dead with the sweep of the object tables, unlink and release as one change, the tables told by their owner fields as for MarkDead; freed and closed exactly when no reference is left |
| ClientRegistry.ClientRegistry.Destroy | server/src/client_registry.c:164-184 | frees and closes every linked client once, front first, and only after RUNNING is cleared |
| TaskQueue.TaskQueue.Enqueue | server/src/task.c:21-88 | refines append on the sequence of tasks; without memory nothing changes |
| TaskQueue.TaskQueue.Dequeue | server/src/task.c:100-119 | refines taking the first task; the counter-based reset of head and tail is sound because the counter is the length of the list |
| TaskQueue.TaskQueue.Destroy | server/src/task.c:122-140 | frees every queued node once, oldest first, and only after RUNNING is cleared |
| SlotSpec.SwapRemoveMultiset | server/src/s_helper.c:156-168 | swap-removal loses exactly the removed slot |
| SlotSpec.RemoveFdKeepsOthers | server/src/s_helper.c:148-171 | with distinct descriptors, removal by descriptor takes out that one slot, keeps all others and keeps them distinct |
| PollSlots.PollSlots.Grow | server/src/s_helper.c:100-126 | the capacity doubles and every slot is kept; if either reallocation fails, contents and capacity are as before |
| PollSlots.PollSlots.Insert | server/src/s_helper.c:131-146 | appends the pair to both arrays, growing when full; on failure nothing changes |
| PollSlots.PollSlots.Remove | server/src/s_helper.c:148-171 | refines swap-removal by descriptor on both arrays at once |
| PollSlots.PollSlots.Sweep | server/src/animate_server.c:301-355 | each client slot present at the start is visited once; a slot goes exactly when its descriptor had an error, or had input or a hang-up and its requests ended in a removal; the others stay as the same multiset of aligned pairs with the self-pipes in place; cut short by RUNNING, it has done this for the slots it got to |
| PollSlots.PollSlots.Visit | server/src/animate_server.c:303-354 | one turn of the sweep, with the same verdict: a slot is kept and passed, or removed, in which case the same index is visited again |
| ObjectTable.IdsAreStable | server/src/object_table.c:12-178 | over any run of calls an id denotes the object it was given out for, and a tombstone never gets a handle back |
| ObjectTable.DestroyedAtMostOnce | server/src/object_table.c:152-178 | over any run, a handle is destroyed or live as often as it was inserted, counting workers' removals and those for dead clients |
| ObjectTable.Table.Grow | server/src/object_table.c:12-22 | 64 entries at first, then twice as many, all entries kept; without memory the array pointer is null and the capacity as before |
| ObjectTable.Table.Insert | server/src/object_table.c:47-127 | appends under the next id, growing when full; a failed growth gives a negative id and leaves the table usable exactly when it was empty |
| ObjectTable.Objects.RemoveOwned | server/src/client_registry.c:92-117 | the sweep of the three tables for a dead client: told by the owner fields, only the client's own entries change, and exactly its live handles are destroyed |
| ObjectTable.Table.Lookup | server/src/object_table.c:130-149 | an id outside the table is refused; a live entry holds the handle inserted under that id |
| ObjectTable.Table.Remove | server/src/object_table.c:152-178 | the named entry loses its handle, which is destroyed if there still is one, and keeps its owner; no other entry changes |
| ObjectTable.Table.RemoveOwned | server/src/client_registry.c:92-117 | one table's part of a client's death: an entry with another owner stays, one of the client's own loses its handle, and the handles destroyed are those of the client's live entries |
| ObjectTable.OthersKeepTheirs | server/src/client_registry.c:92-117 | a client's death leaves every other client's entries exactly as they were |
| ObjectTable.NoneOfMineLives | server/src/client_registry.c:92-117 | right after it, the dead client has no live handle |
| ObjectTable.LiveSwept | server/src/client_registry.c:92-117 | the live handles before the sweep are those after it and those of the entries that name the client as their owner |
| Whitespace.CleanKeepsWords | misc/src/fifo.c:23-45 | cleaning keeps the words in order and is idempotent |
| Whitespace.CleanIffTidy | misc/src/fifo.c:23-45 | cleaning leaves no leading, trailing or doubled whitespace and none but spaces, and changes exactly the texts that have some |
| Whitespace.WordsOfJoined | misc/src/fifo.c:23-45 | splitting on whitespace undoes joining with single spaces |
| Whitespace.CleanLength | misc/src/fifo.c:36-41 | the clean text is never longer, and shorter by one where the cursor is about to emit a space too |
| Whitespace.SanitiseWhitespace | misc/src/fifo.c:23-45 | in place, the string becomes its words joined by single spaces, for every string, with nothing behind it written |
| Fifo.WriteNonblock | misc/src/fifo.c:80-113 | against any answers, an exact prefix enters the pipe; SUCCESS iff all of it, FULL iff nothing and PARTIAL iff some of it before EAGAIN, CLOSED iff cut short by EPIPE, WRITE_FAIL otherwise; atomic writes are all or nothing |
| Fifo.WriteBlock | misc/src/fifo.c:115-142 | the same, with EAGAIN an ordinary failure: SUCCESS iff all of it, CLOSED iff cut short by EPIPE, WRITE_FAIL otherwise |
| Fifo.ReadNonblock | misc/src/fifo.c:144-176 | an exact prefix of the pipe arrives in order and nothing else in the buffer changes; SUCCESS iff the target was reached, EMPTY iff nothing and PARTIAL iff something came before EAGAIN, CLOSED iff cut short by an end of file, READ_FAIL otherwise; with a kernel that hands over what the pipe holds, SUCCESS when enough is there |
| Fifo.ReadUntilDelim | misc/src/fifo.c:178-216 | on SUCCESS exactly one record is taken; otherwise the bytes consumed are a prefix without delimiter and the code is EMPTY iff the last answer was EAGAIN, CLOSED iff it was an end of file, READ_FAIL otherwise; with a kernel that hands over what the pipe holds, it fails only when no whole record was there |
| Fifo.TakeRecordShort | misc/src/fifo.c:190-195 | a text shorter than the limit is taken with its delimiter |
| Fifo.TakeRecordFull | misc/src/fifo.c:213-215 | a text of exactly the limit is taken without looking at what follows |
| Transport.ServerReadsTheSession | client/src/sender.c:9-37 | for anything typed, the server's reads return exactly the clean non-empty chunks in order, up to a Disconnect |
| Transport.LinesArrive | client/src/sender.c:9-37 | for lines of up to 127 characters, the server reads exactly the clean non-empty lines in order |
| Transport.WordFitsExactly | client/src/sender.c:30-34 | the limit is tight: a one-word line arrives as one record if and only if it has at most 127 characters |
| Transport.LoginRecords | client/src/c_helper.c:262-267 | a login request is one record, followed by an empty one exactly when its text has 127 characters |
| Transport.SendKeepsStep | client/src/sender.c:30-34 | a send, at any moment, keeps the wire equal to the texts not yet received |
| Transport.ReceiveKeepsStep | server/src/animate_server.c:318-324 | a receive, at any moment, takes the next text sent, and finds nothing only when all have been received |
| Transport.SendUserInput | client/src/sender.c:9-37 | one chunk is read and its clean text written whole or not at all, always when the pipe accepts it; the result code tells end of input and Disconnect |
| Transport.SendLoop | client/src/animate_client.c:54-69 | the loop tries the session's texts in order until the connection is found closed; the wire gets those whose write was accepted, each whole: all of them when the connection lasts and the pipe accepts every write |
| Transport.SentIsInStep | client/src/sender.c:30-34 | what a send loop leaves on an empty wire is in step with a server that has read nothing |
| ClientTurn.HandleBatch | server/src/animate_server.c:313-346 | one client's turn: at most five requests are handled, the next ones sent, in order, with their effects in that order; only the last can remove the client; the client goes exactly when it does or when the last read found a broken connection; with a kernel that hands over what the pipe holds, the batch ends early only for a removal or when all that was sent is handled |
| ReplyCodec.ScanUndoesDecimal | server/src/animate_server.c:277-289 | the decimal scan reads back any printed integer, up to the character after it |
| ReplyCodec.ScanUndoesJoin | client/src/receiver.c:51-52 | scanning undoes printing any number of values separated by single spaces |
| ReplyCodec.ReplyFits | server/src/animate_server.c:274-289 | for 32-bit values the reply always fits its buffer |
| ReplyCodec.ReplyRoundTrip | client/src/receiver.c:30-105 | for every 32-bit triple and whatever follows on the wire, one record is read and gives back the same number of fields and values |
| ReplyCodec.RepliesRoundTrip | client/src/receiver.c:30-105 | any sequence of replies is received as that sequence of triples |
| ReplyCodec.RecvServerReply | client/src/receiver.c:30-108 | takes one whole reply, scans it and prints its message, or reports no data or a lost connection by the last read's answer; with a kernel that hands over what the pipe holds, a whole reply is always taken |

## Left out

- `libanimate` and frame contents, `ffmpeg`, and writing .dat files: handles are opaque and each call is an answer in `WorkerTasks.Library`.
- WorkerTasks.Serve: whether a canvas has room for one more share is an answer of the environment, and the shares themselves, which nothing reads, are not kept.
- Arguments.MovieTypedBack: for a number out of range the model follows the C library's practice of keeping the low 32 bits, which the C standard leaves undefined.
- ObjectTable.Table.Insert: what happens to a table after it was lost, and two workers inside a table at once, are not modelled.
- ObjectTable.Table.RemoveOwned: says nothing about entries created later for the same client by tasks already in flight; the code does not sweep those again.
- ClientRegistry.ClientRegistry.Release: the refcount is a natural number; the wrap-around of its C type, out of reach of any real run, is not modelled.
- WorkerTasks.Routine: a task that loses a table is not followed further; what its calls on the library do is only listed, in order.
- LifetimeSteps.StepKeepsIffGuarded: a pipe-read error that ends the main loop and the final teardown are not steps; a rejected client is told and removed in one step, because the main thread does both.
- LifetimeSteps.SaysKeeps: the request text in a queued task is left out of the lifetime model, which needs the kind and the client only.
- LifetimeSteps.OpenedKeeps: descriptors opened by a handshake whose result does not fit the pipe stay open for ever, as in the code.
- WorkerPool.ShutdownCompletes: assumes each task body ends; `threadpool_init`'s failure path, which broadcasts without the lock, is not covered.
- Handshake.StepKeeps: timeouts are steps that may happen whenever an alarm is set; wall-clock time is not modelled.
- Transport.SendLoop: the connection state is asked once a turn and may answer anything; the login state that the loop also tests changes with it and is not kept apart.
- ClientTurn.HandleBatch: the client's login state does not change within a batch, because it is the same thread that changes it.
- PollSlots.PollSlots.Sweep: what a client's requests do is the outcome `gone`; the requests themselves are `ClientTurn.HandleBatch` and the steps of `Lifetime`.
- `authorise`, the client's login loop, as a method: what its request looks like on the wire is `Transport.LoginRecords`, and the clean-up it uses is `Whitespace`.
- UserFile.GetBalance: the file is one text for the length of a look-up; changes to it meanwhile are not modelled.
- Signal set-up, argument parsing, logging, and messages other than those for a reply.
- `read_blob` and `write_blob`: unused. `CanvasEntry.shared`, the barrier fields and `PlacementEntry.canvas`: written but never read for any behaviour.
