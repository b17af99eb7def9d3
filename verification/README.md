# Verified models of the networking, process and IPC labs

This project models the C programs of the labs that contain a protocol, a data structure kept in
place, or a parser, and proves what they guarantee. The operating system is an environment that
may choose anything the C code has to put up with: which thread runs next, how many bytes a read
or write moves, which descriptor or process number is handed out, also one closed a moment ago.
Constants such as queue lengths, worker counts, stages and backends are arbitrary numbers.

Two forms are used together. Code that changes arrays, lists and counters in place is a class
with the same fields and loops; each method is proved against a function of the old state. What
the programs promise over whole runs is proved about state machines whose steps are those
functions, or the single system calls and lock operations of the code.

| files | lab |
|---|---|
| ChatPool, ChatPoolInvariant, ChatPoolPreservation, ChatPoolTheorems, ChatPoolServing, JobQueues, Sending | thread-pool chat server (networking lab 15) |
| Registries | the client registries of networking labs 4, 14 and 15 |
| Pipeline, PipelineWiring, PipelineData, PipelineTheorems, PipelineGroups, PipelineSetup | shell pipelines (process labs 12 and 5) |
| Tokenizer | the in-place line parsers of process labs 5 and 12 |
| Jobs | the job table (process lab 11) |
| Rooms, RoomRuns, RoomLines, RoomNuls | room chat server (networking lab 18) |
| Semaphores | producer and consumer in shared memory (IPC lab 5) |
| Tls, TlsRuns | TLS chat server (networking lab 16) |
| Balancers, LowestNumbers, BalancerRuns | TCP load balancers (networking labs 10 and 13) |
| Prelude | vocabulary shared by all |

## What turned out not to hold

Where the code does less than it, or its documentation, says, the model follows the code. A lemma
gives a concrete input or run, or the exact condition under which the promise is kept.

- Thread pool: README.md of the lab says that shutdown closes the client sockets. A connection
  still in the queue when the workers leave stays open (`ShutdownCanLeaveOpen`); all are closed if
  and only if the queue was drained (`AfterShutdown`).
- Pipelines: README.md of lab 12 says that all processes of a pipeline share one group. If stage 0
  ends and is reaped before a later stage is forked they may not (`GroupCanSplit`); the exact
  condition is `SharesTheGroupExactly`.
- Command pipeline: the program announces up to five commands; with five the final NULL is stored
  past the end of its array (`NullFitsExactly`, `FiveCommandsOverrun`).
- Job table: a status reaped between fork and add_job is lost (`EarlyStatusIsLost`), and a process
  id that is listed already hides the new job (`ReusedPidIsShadowed`, `FollowsExactly`).
- Indexed load balancer: an event left in a batch from an earlier connection closes both ends of
  the pair that has its number now, though neither reported anything (`StaleEventClosesANewPair`);
  it does so if and only if the number is open again (`StaleEventHarmsExactly`). The pairing itself
  survives on a kernel that hands out the lowest free numbers (`AlwaysPairedByKernel`).
- TLS server: the comment at server.c:98 says "try later", but on a full socket the rest of the
  message is dropped (`PushMeaning`).
- Room server: /join cuts a room name at 31 characters but announces the joining to the room with
  the name as typed, so for a longer name nobody is told (`JoinIsToldExactly`); and joining the
  room with the empty name tells everybody who is in no room (`JoinAnnounced`).
- Room server: the reply to /leave is sent with 29 bytes, one more than its text, so the
  terminating NUL goes out with it, then and at no other time (`NulExactlyOnLeaving`).

## Model

| member | source | states |
|---|---|---|
| `ChatPoolTheorems.TotalOrder` | 03_networking/lab_15_threaded_chat_server/server.c:150-205 | In every interleaving, two sessions that both receive two messages receive them in the same order. |
| `ChatPoolTheorems.ExactDelivery` | 03_networking/lab_15_threaded_chat_server/server.c:150-162 | When no broadcast is in progress, a live session has a message if and only if it was among the recipients fixed when the broadcaster got the list mutex; nobody gets a message twice; a dead peer has got a part of what was meant for it. |
| `ChatPoolTheorems.RecipientsAtLock` | 03_networking/lab_15_threaded_chat_server/server.c:149-162 | The message that enters the log then carries the sender's session and descriptor and the bytes it received; its recipients are the sessions whose workers are registered at that moment, without the sender. |
| `ChatPoolTheorems.SenderOrder` | 03_networking/lab_15_threaded_chat_server/server.c:174-184 | Read for one sender, the global message log is what recv returned for it, in that order; at most the newest message still waits for the mutex. |
| `ChatPoolTheorems.FrameIsWhole` | 03_networking/lab_15_threaded_chat_server/server.c:177-184 | The prefix with the descriptor and all received bytes fit the output buffer: the truncating branch is never taken. |
| `ChatPoolTheorems.FrameReads` | 03_networking/lab_15_threaded_chat_server/server.c:177-184 | What a recipient gets tells who sent it and what: "[", decimal digits whose value is the sender's descriptor, "] ", and behind that all the bytes received. |
| `ChatPoolTheorems.OneOwner` | 03_networking/lab_15_threaded_chat_server/server.c:66-97 | Every accepted and not yet closed descriptor is with main, in the queue or with one worker, and in exactly one of these places, although the kernel reuses numbers at once. |
| `ChatPoolTheorems.ClientListSound` | 03_networking/lab_15_threaded_chat_server/server.c:108-132 | The client list has no duplicates, names open descriptors only and has at most as many entries as there are workers. |
| `ChatPoolTheorems.QueueIsFifo` | 03_networking/lab_15_threaded_chat_server/server.c:66-97 | What was popped is a prefix of what was pushed; the queue is the rest. |
| `ChatPoolTheorems.NoLostWakeup` | 03_networking/lab_15_threaded_chat_server/server.c:72-84 | A queued job never meets only sleepers: unless main is just about to signal, nobody sleeps or some woken worker is on its way to recheck the queue. |
| `ChatPoolTheorems.CloseReleasesEverybody` | 03_networking/lab_15_threaded_chat_server/server.c:81-105 | jobq_pop returns -1 only when the queue is closed and empty; once jobq_close has broadcast, nobody sleeps. |
| `ChatPoolTheorems.ClosedForGood` | 03_networking/lab_15_threaded_chat_server/server.c:100-105 | After that, in every continuation, nobody sleeps again and the queue stays closed. |
| `ChatPoolTheorems.AwakeWorkerSteps` | 03_networking/lab_15_threaded_chat_server/server.c:165-205 | A worker that neither sleeps nor has left can go on as soon as the one mutex it wants is free. |
| `ChatPoolTheorems.HolderSteps` | 03_networking/lab_15_threaded_chat_server/server.c:66-162 | The thread that holds either mutex, main included, waits for no mutex and can itself take a step, so threads never wait for each other in a circle. |
| `ChatPoolTheorems.NoDeadlock` | 03_networking/lab_15_threaded_chat_server/server.c:81-291 | Thread by thread, in every reachable state: a thread that neither sleeps nor has ended can step, or waits for a mutex whose holder can step, or is main joining workers of which one neither sleeps nor has left. |
| `ChatPoolTheorems.AfterShutdown` | 03_networking/lab_15_threaded_chat_server/server.c:277-291 | When main returns all workers have left, the list that main walks is empty, and the open descriptors are exactly those still queued: everything is closed if and only if the queue was drained. |
| `ChatPoolTheorems.ShutdownCanLeaveOpen` | 03_networking/lab_15_threaded_chat_server/server.c:257-291 | A concrete run in which main returns and an accepted descriptor is still open, against the promised clean shutdown. |
| `ChatPoolServing.DepartsExactlyAtTheEnd` | 03_networking/lab_15_threaded_chat_server/server.c:174-202 | While no stop is requested: a worker is on its way to unlinking and closing the descriptor it serves if and only if recv's last answer for it was the end of the stream or an error; in any other case it serves on. |
| `ChatPoolServing.RemovedOnlyAtTheEnd` | 03_networking/lab_15_threaded_chat_server/server.c:185-202 | While no stop is requested: whatever leaves the client list or is closed belongs to the worker that does it, and that worker's last recv answered with the end of the stream or an error. |
| `ChatPoolServing.AgainChangesNothing` | 03_networking/lab_15_threaded_chat_server/server.c:188-194 | An interrupted or empty recv sends the worker back to its loop and leaves list, descriptors, queue, log and inboxes as they were. |
| `ChatPoolServing.EndLeadsToClose` | 03_networking/lab_15_threaded_chat_server/server.c:185-202 | After the end of the stream or an error, whatever the others do in between, the worker's next own steps are lock, unlink, unlock, close, and no further recv: the descriptor is off the list after the second, and open, and nobody else's, until the last. |
| `ChatPoolServing.CloseCloses` | 03_networking/lab_15_threaded_chat_server/server.c:201-203 | That last step closes the descriptor and leaves the worker free for the next job. |
| `ChatPoolServing.HeardIsReceived` | 03_networking/lab_15_threaded_chat_server/server.c:174-184 | What counts as sent by a session is all the data recv answered with for it in the schedule, in that order. |
| `ChatPoolServing.AcceptedIsQueued` | 03_networking/lab_15_threaded_chat_server/server.c:257-274 | Every descriptor that accept returned is pushed, once and in order; at most the newest is still on its way; failed accepts leave no trace. |
| `ChatPoolServing.WhileRunning` | 03_networking/lab_15_threaded_chat_server/server.c:167-274 | Until a stop is requested main goes on accepting, the queue stays open and no worker leaves. |
| `ChatPoolServing.StopIsPrompt` | 03_networking/lab_15_threaded_chat_server/server.c:167-174 | Once a stop is requested each worker returns from at most one more recv, the one it was in, and takes at most one more job, if it was waiting for one. |
| `ChatPoolPreservation.WorkerKeepsInv` | 03_networking/lab_15_threaded_chat_server/server.c:165-205 | Every step of every worker keeps the global invariant (locks, ownership, registry, wake-ups, deliveries). |
| `ChatPoolPreservation.MainKeepsInv` | 03_networking/lab_15_threaded_chat_server/server.c:257-289 | Every step of the main thread keeps it. |
| `ChatPoolPreservation.SpuriousKeepsInv` | 03_networking/lab_15_threaded_chat_server/server.c:83-85 | A spurious wake-up keeps it. |
| `ChatPoolPreservation.WorkerWakeups` | 03_networking/lab_15_threaded_chat_server/server.c:81-97 | A worker's step keeps the wake-up invariant: if a worker sleeps unsignalled, the queue is no longer than the number of awake workers that have still to recheck it, counting the signal main is about to send. |
| `ChatPoolPreservation.WorkerOwn` | 03_networking/lab_15_threaded_chat_server/server.c:168-202 | A worker's step keeps ownership exclusive: taking a job, closing a descriptor. |
| `ChatPoolPreservation.CloseKeepsPending` | 03_networking/lab_15_threaded_chat_server/server.c:201-202 | Closing a descriptor disturbs no broadcast, because remove_client came before. |
| `ChatPoolPreservation.RunKeepsInv` | 03_networking/lab_15_threaded_chat_server/server.c:165-291 | The invariant holds in every reachable state. |
| `JobQueues.JobQueue.Push` | 03_networking/lab_15_threaded_chat_server/server.c:66-78 | On the linked list with head and tail: the job is appended to the contents. |
| `JobQueues.JobQueue.Pop` | 03_networking/lab_15_threaded_chat_server/server.c:86-96 | The oldest job leaves the contents; -1 from a closed and empty queue changes nothing. |
| `JobQueues.JobQueue.Close` | 03_networking/lab_15_threaded_chat_server/server.c:100-105 | The queue is closed and keeps its contents. |
| `Sending.SendAll` | 03_networking/lab_15_threaded_chat_server/server.c:135-147 | For every sequence of short sends, interrupts and errors the peer gets a prefix, as long as the answers' counts add up to and never longer than the message, and the whole message if and only if the result is 1; only short sends and interrupts let the loop go on, it stops once there was room for all, and the number of send calls is bounded by the bytes sent and the stalls. |
| `Registries.FlagTable.Broadcast` | 03_networking/lab_04_epoll_chat_server/server.c:98-103 | Over the flag array, every member except the sender gets the message exactly once. |
| `Registries.FlagTable.Add` | 03_networking/lab_04_epoll_chat_server/server.c:77-85 | Setting a flag adds one member to the set. |
| `Registries.FlagTable.Remove` | 03_networking/lab_04_epoll_chat_server/server.c:89-93 | Clearing it removes that member. |
| `Registries.DenseTable.Broadcast` | 03_networking/lab_14_epoll_chat_server/src/server.c:21-28 | Over the dense array, every member except the sender exactly once. |
| `Registries.DenseTable.Add` | 03_networking/lab_14_epoll_chat_server/src/server.c:60-74 | Appending adds one member. |
| `Registries.DenseTable.Remove` | 03_networking/lab_14_epoll_chat_server/src/server.c:86-92 | Moving the last entry into the hole removes exactly that member, and the array stays free of duplicates. |
| `Registries.SwapRemoved` | 03_networking/lab_14_epoll_chat_server/src/server.c:86-92 | Overwriting an entry with the last one and dropping the last slot removes that entry and no other. |
| `Registries.ClientList.Add` | 03_networking/lab_15_threaded_chat_server/server.c:108-116 | A node in front of the linked list adds one member. |
| `Registries.ClientList.Remove` | 03_networking/lab_15_threaded_chat_server/server.c:119-132 | Relinking past the node removes exactly that member and keeps the order of the others. |
| `Registries.ClientList.Broadcast` | 03_networking/lab_15_threaded_chat_server/server.c:149-162 | Along the list, every member except the sender exactly once. |
| `Registries.SameRecipients` | 03_networking/lab_04_epoll_chat_server/server.c:98-103 | Two broadcasts that reach everybody else exactly once differ in order only, so the three registries send to the same peers. |
| `Registries.RunFlags` | 03_networking/lab_04_epoll_chat_server/server.c:75-105 | Over any history of connects, disconnects and messages with reused numbers, the flag array holds the abstract set, and each message went once to everybody who was in it at that moment but the sender. |
| `Registries.RunDense` | 03_networking/lab_14_epoll_chat_server/src/server.c:60-103 | The dense array holds the same set and sends to the same peers, while it is not over-filled. |
| `Registries.RunList` | 03_networking/lab_15_threaded_chat_server/server.c:108-162 | The linked list holds the same set and sends to the same peers. |
| `Registries.SameRecipientsThroughout` | 03_networking/lab_14_epoll_chat_server/src/server.c:21-28 | So over one history any two of the registries send each message to the same peers, once each. |
| `PipelineWiring.SetupWires` | 01_processes/lab12_pipelines/src/main.c:141-150 | The two dup2 calls and the closing loop leave a stage with the intended table and not one pipe descriptor more. |
| `PipelineTheorems.WiredAtExec` | 01_processes/lab12_pipelines/src/main.c:134-153 | In every interleaving of shell and children: when a stage runs, its input is the pipe before it (or the terminal), its output the pipe behind it, and it has no other descriptor than the shell had. |
| `PipelineTheorems.OneWriterOneReader` | 01_processes/lab12_pipelines/src/main.c:146-164 | Once the set-up is over, pipe p is open for writing in stage p only and for reading in stage p+1 only; before, it never loses its last writer or reader too early; it has no writer exactly when stage p is over. |
| `PipelineWiring.PipeStaysAlive` | 01_processes/lab12_pipelines/src/main.c:129-164 | No early end of file and no early broken pipe: an existing pipe has a writer until its writing stage is over, a reader until its reading stage is. |
| `PipelineWiring.SoleHolders` | 01_processes/lab05_command_pipeline/src/main.c:98-118 | After everybody has closed, the only holders of a pipe's ends are its two stages. |
| `PipelineWiring.ParentRestored` | 01_processes/lab12_pipelines/src/main.c:161-164 | The shell's own table is what it was before the pipeline. |
| `PipelineWiring.StepKeepsWiring` | 01_processes/lab12_pipelines/src/main.c:129-164 | Every system call of shell and children keeps the wiring invariant. |
| `PipelineTheorems.PipelineMeaning` | 01_processes/lab12_pipelines/src/main.c:124-175 | Whenever all processes are over, the terminal has got the composition of the stage functions applied to the input, whatever the order and sizes of reads and writes. |
| `PipelineData.FilterMeaning` | 01_processes/lab12_pipelines/src/main.c:124-175 | What a stage function is: the answers of the command to the characters it reads, one after the other, and its answer to the end of input. |
| `PipelineData.PlainComposition` | 01_processes/lab12_pipelines/src/main.c:124-175 | For commands that write only after they have read everything, each stage's stream is that command applied to the stream before it. |
| `PipelineTheorems.ReadItAll` | 01_processes/lab12_pipelines/src/main.c:141-144 | A stage that sees its end of file has read the whole stream meant for it. |
| `PipelineTheorems.ReadsArePrefixes` | 01_processes/lab12_pipelines/src/main.c:129-150 | At every moment what a stage has read or written is a prefix of what it will. |
| `PipelineTheorems.OutputIsAPrefix` | 01_processes/lab12_pipelines/src/main.c:124-175 | At every moment the terminal shows a prefix of the final output. |
| `PipelineTheorems.NobodyIsKilled` | 01_processes/lab12_pipelines/src/main.c:146-164 | No stage writes to a pipe without readers. |
| `PipelineTheorems.NoDeadlock` | 01_processes/lab12_pipelines/src/main.c:134-164 | Until all is over some process can step, whatever the sizes of pipes, inputs and outputs. |
| `PipelineTheorems.StepWorks` | 01_processes/lab12_pipelines/src/main.c:129-175 | Every step of every process decreases an explicit measure. |
| `PipelineTheorems.WorkBounds` | 01_processes/lab12_pipelines/src/main.c:129-175 | So the steps taken plus the measure left never exceed the measure at the start. |
| `PipelineTheorems.EveryRunEndsWithTheAnswer` | 01_processes/lab12_pipelines/src/main.c:124-175 | Total correctness: no schedule exceeds a bound fixed at the start, and one that cannot go on has printed the composition. |
| `PipelineData.PipeReadKeepsData` | 01_processes/lab12_pipelines/src/main.c:141-142 | A read moves characters from the pipe to the stage, in order. |
| `PipelineData.PipeWriteKeepsData` | 01_processes/lab12_pipelines/src/main.c:143-144 | A write moves pending characters to the pipe, in order. |
| `PipelineData.StepKeepsInv` | 01_processes/lab12_pipelines/src/main.c:124-175 | Every step keeps what each stage owes equal to what it has written and what it holds back. |
| `PipelineGroups.OneGroup` | 01_processes/lab12_pipelines/src/main.c:132-166 | In every interleaving of the double setpgid: while stage 0 is unreaped, every stage is in its group before its program runs, all are when the last has been started, and that is the group recorded. |
| `PipelineGroups.SharesTheGroupExactly` | 01_processes/lab12_pipelines/src/main.c:137-157 | With stage 0 reaped or not: a stage is in stage 0's group if and only if one of the two setpgid calls made on it before its exec finds an unreaped process in that group. |
| `PipelineGroups.GroupCanSplit` | 01_processes/lab12_pipelines/src/main.c:134-159 | A concrete run in which stage 0 is reaped before stage 1 is forked and the stages end up in different groups, against the promise that all share one. |
| `PipelineSetup.Process.CreatePipes` | 01_processes/lab12_pipelines/src/main.c:129-130 | The loop of pipe() calls extends the table by the two ends of each pipe. |
| `PipelineSetup.Process.ClosePipes` | 01_processes/lab05_command_pipeline/src/main.c:98-103 | The closing loop removes all ends of all pipes. |
| `PipelineSetup.Process.SetUpStage` | 01_processes/lab05_command_pipeline/src/main.c:84-103 | What a child does between fork and exec gives it the intended table. |
| `PipelineSetup.ExecutePipeline` | 01_processes/lab05_command_pipeline/src/main.c:63-118 | Run without interleaving: n stages, each wired, and a shell with the table it began with. |
| `Tokenizer.FieldsSplit` | 01_processes/lab05_command_pipeline/src/main.c:28-33 | Cutting at a delimiter cuts the fields in two: fields of a, then fields of b. |
| `Tokenizer.FieldsKeepEverything` | 01_processes/lab05_command_pipeline/src/main.c:15-20 | Fields are non-empty and delimiter-free, and joined they are all the other characters in order. |
| `Tokenizer.SeparatorsExactly` | 01_processes/lab05_command_pipeline/src/main.c:15-28 | Blank, tab and newline separate words and nothing else does; the bar separates commands and nothing else does. |
| `Tokenizer.BlanksSeparate` | 01_processes/lab05_command_pipeline/src/main.c:15-19 | At any of the three, wherever it stands and however many there are, the words of a text are those before it and those behind it. |
| `Tokenizer.Strtok.Next` | 01_processes/lab05_command_pipeline/src/main.c:15-19 | strtok on the array does what the cut on values does. |
| `Tokenizer.CutMeaning` | 01_processes/lab05_command_pipeline/src/main.c:28-33 | One call returns the next field, terminated in place, leaves the others to come, and changes nothing before its starting point. |
| `Tokenizer.HeldStays` | 01_processes/lab05_command_pipeline/src/main.c:31-32 | A token that is terminated below a limit keeps its text when only memory from the limit on changes. |
| `Tokenizer.NextToken` | 01_processes/lab05_command_pipeline/src/main.c:29-33 | One turn of either loop stores the next field and leaves all earlier tokens intact. |
| `Tokenizer.StoredMeaning` | 01_processes/lab05_command_pipeline/src/main.c:29-33 | The loop ends with pointers to the first fields, as many as there is room for. |
| `Tokenizer.StoreTokens` | 01_processes/lab05_command_pipeline/src/main.c:15-20 | The loop common to both levels: the pointers point to the first fields, as many as there is room for. |
| `Tokenizer.SplitPipeline` | 01_processes/lab05_command_pipeline/src/main.c:25-36 | In place: the pointers point to the first commands of the line; the final NULL is stored past the end if and only if the line has at least as many commands as there are slots. |
| `Tokenizer.ParseCommand` | 01_processes/lab05_command_pipeline/src/main.c:12-22 | In place: the pointers point to the first words, one slot is left for the final NULL, and further words are dropped. |
| `Tokenizer.ParsePipeline` | 01_processes/lab12_pipelines/src/main.c:111-120 | In place: the pointers point to the first commands without the blanks before them. |
| `Tokenizer.TrimLeft` | 01_processes/lab12_pipelines/src/main.c:115-115 | The pointer moves past exactly the leading blanks. |
| `Tokenizer.RunChild` | 01_processes/lab05_command_pipeline/src/main.c:105-107 | A child that cuts its own copy of the buffer executes the words of its command. |
| `Tokenizer.RunLine` | 01_processes/lab05_command_pipeline/src/main.c:59-111 | For every line whose final NULL is stored in bounds, both levels together give each child its words; the result tells whether it was. |
| `Tokenizer.WordsComeBack` | 01_processes/lab05_command_pipeline/src/main.c:12-22 | Words joined by blanks are cut into the same words. |
| `Tokenizer.RoundTrip` | 01_processes/lab05_command_pipeline/src/main.c:12-36 | Rendering any pipeline of fewer commands than slots, of words within the limit, and cutting it at both levels gives it back, and no store is out of bounds. |
| `Tokenizer.NullFitsExactly` | 01_processes/lab05_command_pipeline/src/main.c:34-41 | For a rendered pipeline the store of the final NULL overruns the slots if and only if it has at least as many commands as slots. |
| `Tokenizer.FiveCommandsOverrun` | 01_processes/lab05_command_pipeline/src/main.c:34-45 | A line of five commands, the announced limit, overruns the five slots. |
| `Jobs.JobTable.FindJob` | 01_processes/lab11_advanced_job_control/src/main.c:27-31 | The index of the first job with that process id, -1 if there is none. |
| `Jobs.JobTable.AddJob` | 01_processes/lab11_advanced_job_control/src/main.c:44-51 | The job is appended, unless the table is full; then nothing changes. |
| `Jobs.JobTable.HandleSigchld` | 01_processes/lab11_advanced_job_control/src/main.c:55-75 | The handler applies the reaped statuses in order, each to the first job with that process id; what each does to it is `LastStatusShows` and `StopShows`. |
| `Jobs.JobTable.Resume` | 01_processes/lab11_advanced_job_control/src/main.c:79-105 | fg and bg set an unfinished job running and change nothing else; a finished job and a bad number change nothing. |
| `Jobs.TableIsStarts` | 01_processes/lab11_advanced_job_control/src/main.c:44-51 | The table lists the first processes started, as many as fit, in order, each with the command it was started with, cut at 127 characters. |
| `Jobs.LastWordCounts` | 01_processes/lab11_advanced_job_control/src/main.c:55-105 | A tracked job's state depends only on what happened to it since it was added. |
| `Jobs.WordIsTheLast` | 01_processes/lab11_advanced_job_control/src/main.c:63-73 | It is given by the last status reaped for it, unless that left it unfinished and fg or bg resumed it since; `LastStatusShows` spells out the states. |
| `Jobs.LastStatusShows` | 01_processes/lab11_advanced_job_control/src/main.c:63-73 | A listed process whose last reaped status is "stopped" shows as stopped, unless fg or bg resumed it since, which shows as running; after "continued" it shows as running, and after "ended" as done whatever is resumed. |
| `Jobs.StopShows` | 01_processes/lab11_advanced_job_control/src/main.c:63-73 | The handler on one job: a stop makes a running job stopped, a continuation makes it running again, an end makes it done. |
| `Jobs.WordWithoutStatus` | 01_processes/lab11_advanced_job_control/src/main.c:79-105 | With no status reaped, only a resumption changes it, and none changes a finished job. |
| `Jobs.DoneIsFinal` | 01_processes/lab11_advanced_job_control/src/main.c:81-84 | A finished job stays finished while the kernel reports nothing more about it. |
| `Jobs.UntrackedChangeNothing` | 01_processes/lab11_advanced_job_control/src/main.c:60-61 | Leaving out all statuses of processes that never became jobs gives the same table. |
| `Jobs.EarlyStatusIsLost` | 01_processes/lab11_advanced_job_control/src/main.c:156-167 | With statuses reaped before add_job the table agrees with what happened if and only if the last of them left the process running, or another status is reaped later, or it was stopped and is resumed. |
| `Jobs.EndedBeforeAdded` | 01_processes/lab11_advanced_job_control/src/main.c:156-167 | A concrete case: a command that ends before it is added stays listed as running. |
| `Jobs.FollowsExactly` | 01_processes/lab11_advanced_job_control/src/main.c:27-51 | A new job is shown right, whatever happens to it later, if and only if its process id is not listed already and the table has room. |
| `Jobs.ReusedPidIsShadowed` | 01_processes/lab11_advanced_job_control/src/main.c:27-31 | With a process id that is listed already, every status goes to the older job and the new one is shown as running for good. |
| `RoomRuns.RoomsAreMulticast` | 03_networking/lab_18_room_chat_server/src/server.c:31-174 | Over any run with reused numbers, the chat lines a session received are exactly those that a multicast over sessions prescribes: one for each text said by others in its room while it was in it, in order. `RoomLines.ReceivedLinesRead` says what they read. |
| `RoomLines.ReceivedLinesRead` | 03_networking/lab_18_room_chat_server/src/server.c:170-173 | In any run, cutting a received chat line at the first ":" and the first "] " gives the speaker's name ("anon" for none), the room and the words, line by line what others in the room said; it holds whenever the name has no colon, the room no bracket and the line fits the buffer. |
| `RoomLines.ReadsBack` | 03_networking/lab_18_room_chat_server/src/server.c:170-172 | The format read backwards: every such line gives back the name, the room and the text it was made from. |
| `RoomLines.Conversation` | 03_networking/lab_18_room_chat_server/src/server.c:63-84 | After any run: one client takes a name and a room, another joins that room, the first speaks, the other leaves, the first speaks again; then the other has got exactly one line more, and it reads as the name, room and words that were typed. |
| `RoomLines.JoinIsToldExactly` | 03_networking/lab_18_room_chat_server/src/server.c:69-77 | In any run, the others in the room that somebody joins are told if and only if the name was typed with fewer than 32 characters. |
| `RoomLines.JoinAnnounced` | 03_networking/lab_18_room_chat_server/src/server.c:69-77 | Whoever joins gets the reply with the name as typed; everybody else whose room has exactly that name is told who joined, and nobody else hears of it. |
| `RoomLines.LeaveAnnounced` | 03_networking/lab_18_room_chat_server/src/server.c:79-84 | Whoever leaves a room gets the fixed reply, everybody else in that room is told who left which room, and nobody else hears of it. |
| `RoomLines.NickAnswered` | 03_networking/lab_18_room_chat_server/src/server.c:62-67 | Whoever takes a name is told the name that counts from then on, the first 31 characters of the typed one, keeps the room, and nobody else hears of it. |
| `RoomLines.OnlyAnswered` | 03_networking/lab_18_room_chat_server/src/server.c:85-166 | Speaking without a room, leaving none, "/quit" and an unknown command each get their fixed answer, nobody else hears of it, no name or room changes, and only "/quit" ends the session. |
| `RoomLines.Greeted` | 03_networking/lab_18_room_chat_server/src/server.c:142-148 | A new connection gets the welcome, and nobody else gets anything. |
| `RoomLines.ListedExactly` | 03_networking/lab_18_room_chat_server/src/server.c:90-98 | In any run, however one cuts the answer to /list into lines, they are the heading and a line for each session in the asker's room, by its name, and no other line; nobody but the asker gets it. |
| `RoomLines.LinesAreUnique` | 03_networking/lab_18_room_chat_server/src/server.c:91-96 | A text made of lines can be cut into lines in one way only. |
| `RoomRuns.NewSessionIsBlank` | 03_networking/lab_18_room_chat_server/src/server.c:142-148 | A new session has no name, no room and nothing to have heard, also on a reused number. |
| `RoomRuns.ArrayIsTheMap` | 03_networking/lab_18_room_chat_server/src/server.c:31-55 | The array lists each open descriptor once, with its session's latest name and room. |
| `RoomRuns.SpeechReaches` | 03_networking/lab_18_room_chat_server/src/server.c:162-173 | A text reaches a session as a chat line if and only if the specification says so, once. |
| `RoomRuns.CommandShape` | 03_networking/lab_18_room_chat_server/src/server.c:57-107 | Every command changes at most the sender's own entry, as its meaning says, and sends no chat line. |
| `RoomRuns.RemoveOne` | 03_networking/lab_18_room_chat_server/src/server.c:45-55 | Swap-remove takes exactly that client out and leaves every other in the array. |
| `RoomRuns.RoomLine` | 03_networking/lab_18_room_chat_server/src/server.c:38-43 | A line to a room arrives once at each session whose client is in it, the excluded one excepted. |
| `RoomNuls.NulExactlyOnLeaving` | 03_networking/lab_18_room_chat_server/src/server.c:79-87 | In any run an event sends a NUL if and only if it is a /leave from a session that is in a room; then it is in the reply, the last send of the event, and in no other. |
| `RoomNuls.LeaveSendsNul` | 03_networking/lab_18_room_chat_server/src/server.c:79-84 | That reply is the fixed text with its NUL, 29 bytes; what the room is told has none. |
| `RoomNuls.LeaveInARoom` | 03_networking/lab_18_room_chat_server/src/server.c:79-84 | A concrete case: somebody in a room sends /leave. |
| `RoomRuns.RunKeepsInv` | 03_networking/lab_18_room_chat_server/src/server.c:129-176 | Every event keeps the refinement relation. |
| `Rooms.Server.FindClientByFd` | 03_networking/lab_18_room_chat_server/src/server.c:31-36 | The first entry with that descriptor, -1 if there is none. |
| `Rooms.Server.BroadcastRoom` | 03_networking/lab_18_room_chat_server/src/server.c:38-43 | One send per member of the room, in array order, without the excluded one. |
| `Rooms.Server.RemoveClient` | 03_networking/lab_18_room_chat_server/src/server.c:45-55 | The array after the swap-remove; the descriptor is closed if and only if it was found. |
| `Rooms.Server.List` | 03_networking/lab_18_room_chat_server/src/server.c:90-98 | The list of the names in a room. |
| `Rooms.Server.Join` | 03_networking/lab_18_room_chat_server/src/server.c:69-77 | The room is changed, the answer sent, and the announcement sent to the others in the new room. |
| `Rooms.Server.Leave` | 03_networking/lab_18_room_chat_server/src/server.c:80-84 | The announcement goes to the others in the room, the room is cleared, the answer sent. |
| `Rooms.Server.HandleCommand` | 03_networking/lab_18_room_chat_server/src/server.c:57-107 | Array, sends and closes are those of the command as a function. |
| `Rooms.Server.HandleReadable` | 03_networking/lab_18_room_chat_server/src/server.c:151-174 | The same for whatever a client sends, and for its hanging up; what the lines say is stated in RoomLines. |
| `Rooms.Server.HandleAccept` | 03_networking/lab_18_room_chat_server/src/server.c:142-148 | A blank entry is appended and greeted. |
| `Semaphores.MutualExclusion` | 02_ipc/lab_05_synchronization/src/main.c:46-71 | In every run producer and consumer are never both inside, and the mutex counts it. |
| `Semaphores.SlotsConserved` | 02_ipc/lab_05_synchronization/src/main.c:46-71 | empty + full + producer in flight + consumer in flight = N. |
| `Semaphores.ReadsAreComplete` | 02_ipc/lab_05_synchronization/src/main.c:50-52 | The consumer's m-th read sees the whole m-th message, id and text. |
| `Semaphores.ReadsAreNumbered` | 02_ipc/lab_05_synchronization/src/main.c:50-65 | Spelled out: the m-th message read has id m, and its text is the fixed words followed by decimal digits whose value is m, counted from 1. |
| `Semaphores.DestroyedLast` | 02_ipc/lab_05_synchronization/src/main.c:73-78 | The semaphores are destroyed only after the consumer has finished, with their initial values in empty and mutex and 0 in full. |
| `Semaphores.NotStuck` | 02_ipc/lab_05_synchronization/src/main.c:46-81 | No reachable state but the final one is stuck. |
| `Semaphores.WorkDone` | 02_ipc/lab_05_synchronization/src/main.c:46-81 | Every run makes exactly one unit of progress per step, out of 13 N + 2. |
| `Semaphores.EveryRunEnds` | 02_ipc/lab_05_synchronization/src/main.c:33-81 | Every run ends after exactly 13 N + 2 steps, in the final state, with all N messages read in order and all slots empty. |
| `Semaphores.StepKeepsInv` | 02_ipc/lab_05_synchronization/src/main.c:46-71 | Every step of either process keeps the invariant over semaphores, slots and reads. |
| `Semaphores.SharedMemory.Produce` | 02_ipc/lab_05_synchronization/src/main.c:59-78 | One step of the producer on the shared memory is the producer step of the protocol. |
| `Semaphores.SharedMemory.Consume` | 02_ipc/lab_05_synchronization/src/main.c:46-56 | One step of the consumer is the consumer step of the protocol. |
| `Semaphores.SharedMemory.OneStep` | 02_ipc/lab_05_synchronization/src/main.c:46-71 | Whichever process the scheduler picks, the invariant is kept and the work left shrinks. |
| `Semaphores.Execute` | 02_ipc/lab_05_synchronization/src/main.c:33-81 | Under any scheduler the program ends and prints the N messages in order. |
| `TlsRuns.Lifecycle` | 03_networking/lab_16_tls_epoll_chat/server.c:251-303 | In every run a connection only moves forward: made, shaking hands, established, closed, freed. |
| `TlsRuns.ReleasedExactly` | 03_networking/lab_16_tls_epoll_chat/server.c:251-303 | In any run: an established connection is freed by its own event if and only if its reads are some messages followed by its end or an error, and stays established if they run out or meet "want more" first; a handshake is freed if and only if it fails for good, established if and only if it succeeds; one that a broadcast has marked is freed. |
| `TlsRuns.EverybodyHears` | 03_networking/lab_16_tls_epoll_chat/server.c:87-109 | In any run: an established peer with room gets every message the event reads, whole and in order; one without gets of each message the first bytes that fit, until it breaks; the sender and whoever is not established get nothing. |
| `TlsRuns.HearsWhatFits` | 03_networking/lab_16_tls_epoll_chat/server.c:92-106 | Such a peer is closed if and only if its last text is one that broke it; otherwise it got a text for every message. |
| `TlsRuns.NoUnknownDescriptor` | 03_networking/lab_16_tls_epoll_chat/server.c:241-249 | With one event per descriptor and batch, the branch for an unknown descriptor is never taken. |
| `TlsRuns.ListIsTheOpenDescriptors` | 03_networking/lab_16_tls_epoll_chat/server.c:68-84 | The list names each open client descriptor once and no other, although numbers are reused. |
| `TlsRuns.ReleasedAtMostOnce` | 03_networking/lab_16_tls_epoll_chat/server.c:74-84 | No SSL object is freed twice, each is freed together with the close of its own descriptor, and what is not released is in the list. |
| `TlsRuns.ShutdownReleasesEverything` | 03_networking/lab_16_tls_epoll_chat/server.c:308-320 | After shutdown every SSL object ever made has been freed exactly once, with its descriptor, and no client descriptor is open. |
| `TlsRuns.EachPeerAlone` | 03_networking/lab_16_tls_epoll_chat/server.c:87-109 | The broadcast loop inside the read loop treats each peer as if it were alone: same final state, same texts in order. |
| `TlsRuns.WhatEachPeerGets` | 03_networking/lab_16_tls_epoll_chat/server.c:272-278 | In any run, an event sends each connection what that connection takes of the messages read, and only an established connection's event sends anything. |
| `TlsRuns.ReadAllStates` | 03_networking/lab_16_tls_epoll_chat/server.c:272-295 | Broadcasts never touch the reader itself; another connection keeps its state or goes from established to closed. |
| `TlsRuns.PushMeaning` | 03_networking/lab_16_tls_epoll_chat/server.c:92-106 | A peer gets the first bytes it has room for, all of them if and only if there is room; it is marked closed if and only if it breaks before it has all. |
| `TlsRuns.StepKeepsInv` | 03_networking/lab_16_tls_epoll_chat/server.c:202-320 | Every accept, event, batch and the shutdown keeps the list, the kernel and the records of what was released in step. |
| `Tls.Server.WriteLoop` | 03_networking/lab_16_tls_epoll_chat/server.c:90-106 | The write loop computes the bytes taken and whether the connection broke. |
| `Tls.Server.BroadcastMessage` | 03_networking/lab_16_tls_epoll_chat/server.c:87-109 | One pass over the linked list marks exactly the broken peers and writes to the others what they take; the links stay. |
| `Tls.Server.ReadLoop` | 03_networking/lab_16_tls_epoll_chat/server.c:270-295 | The read loop on the list is the read loop on values; when it ends the reader's own connection is `TlsRuns.ReleasedExactly`. |
| `Tls.Server.FindConnection` | 03_networking/lab_16_tls_epoll_chat/server.c:241-243 | The first node with that descriptor, and the node before it. |
| `Tls.Server.HandleReady` | 03_networking/lab_16_tls_epoll_chat/server.c:239-304 | One event on the list; the node before the one removed, found before the reads and broadcasts, still precedes it. Which connection is freed is `TlsRuns.ReleasedExactly`. |
| `Tls.Server.CleanUp` | 03_networking/lab_16_tls_epoll_chat/server.c:298-303 | A connection that is closed by then is removed and released, any other kept. |
| `Tls.Server.RemoveConnection` | 03_networking/lab_16_tls_epoll_chat/server.c:74-84 | Exactly that node leaves the list; its SSL object and descriptor are released. |
| `Tls.Server.AddConnection` | 03_networking/lab_16_tls_epoll_chat/server.c:68-71 | The connection is put in front, shaking hands. |
| `Tls.Server.AcceptLoop` | 03_networking/lab_16_tls_epoll_chat/server.c:211-238 | All accepted connections are put in front of the list, one by one. |
| `Tls.AcceptedInFront` | 03_networking/lab_16_tls_epoll_chat/server.c:211-238 | So the newest comes first, with the SSL objects numbered as made, and the connections there were are behind. |
| `Tls.Server.Shutdown` | 03_networking/lab_16_tls_epoll_chat/server.c:308-320 | Everything left in the list is freed and closed, once each, in order. |
| `Balancers.ScanIsIndex` | 03_networking/lab_10_tcp_load_balancer/load_balancer.c:116-123 | After any sequence of pairs, with numbers reused at will, the last-match scan and the table indexed by descriptor give the same peer to every descriptor that ever had one. |
| `BalancerRuns.AlwaysPairedByKernel` | 03_networking/lab_13_async_load_balancer/src/load_balancer.c:70-122 | With accept and socket returning the lowest free numbers, whatever numbers are in use for good, the open sockets are pairs in every state of every run, stale events included. |
| `LowestNumbers.LowestAreMates` | 03_networking/lab_13_async_load_balancer/src/load_balancer.c:75-79 | The two lowest free numbers are neighbours in a fixed pairing of all numbers not in use for good, as long as open numbers come in such pairs. |
| `LowestNumbers.ClosingKeepsTwos` | 03_networking/lab_13_async_load_balancer/src/load_balancer.c:106-112 | Closing a number and its mate keeps the open numbers in such pairs. |
| `BalancerRuns.KernelStep` | 03_networking/lab_13_async_load_balancer/src/load_balancer.c:70-122 | Every step on that kernel keeps table entries and open numbers in such pairs, and its closing event is harmless. |
| `BalancerRuns.PeersAreMutual` | 03_networking/lab_13_async_load_balancer/src/load_balancer.c:89-119 | The open sockets are a disjoint union of pairs: the peer of the peer is the socket, which is not its own peer; in any run on a kernel that hands out the lowest free numbers, and in any run with harmless closing events on any other. |
| `BalancerRuns.EndsTogether` | 03_networking/lab_13_async_load_balancer/src/load_balancer.c:106-112 | Both ends of a pair open and close together, and nothing else is affected. |
| `BalancerRuns.ConnectKeepsPairs` | 03_networking/lab_13_async_load_balancer/src/load_balancer.c:89-92 | A pair on reused numbers disturbs no other pair although old entries are never cleared. |
| `BalancerRuns.CloseKeepsPairsExactly` | 03_networking/lab_13_async_load_balancer/src/load_balancer.c:106-112 | Whatever the table and the open numbers, a closing event keeps the pairing if and only if its descriptor is open or the peer in its entry is not. |
| `BalancerRuns.PairedExactly` | 03_networking/lab_13_async_load_balancer/src/load_balancer.c:70-122 | On a kernel that picks any free number: over any run, stale events included, the sockets are paired in every state if and only if every closing event names an open descriptor or an entry whose peer is closed. |
| `BalancerRuns.StaleEventHarmsExactly` | 03_networking/lab_13_async_load_balancer/src/load_balancer.c:103-112 | A closing event takes down whatever pair its descriptor belongs to now, and changes nothing if that descriptor is closed. |
| `BalancerRuns.StaleEventClosesANewPair` | 03_networking/lab_13_async_load_balancer/src/load_balancer.c:72-112 | A concrete run with lowest free numbers in which an event left from an earlier connection closes both ends of a new pair. |
| `BalancerRuns.ScanAgrees` | 03_networking/lab_10_tcp_load_balancer/load_balancer.c:102-124 | In every reachable state the scan is the same involution as the index. |
| `BalancerRuns.BytesConserved` | 03_networking/lab_10_tcp_load_balancer/load_balancer.c:49-54 | For each direction of each open pair, bytes relayed followed by bytes unread are the bytes received: nothing lost, reordered or from elsewhere. |
| `BalancerRuns.RelayExactly` | 03_networking/lab_13_async_load_balancer/src/load_balancer.c:115-119 | A read hands exactly the bytes read to the scanned peer, behind what it got before, and moves nothing else. |
| `BalancerRuns.RelayedIsWhatArrived` | 03_networking/lab_13_async_load_balancer/src/load_balancer.c:103-119 | In any run: what was written to a socket's peer and what is still unread are together what has arrived on that socket since it was connected. |
| `BalancerRuns.AllRelayed` | 03_networking/lab_13_async_load_balancer/src/load_balancer.c:115-119 | When everything that arrived on an open socket is read, its peer has got all of it. |
| `BalancerRuns.RelayKeepsBytes` | 03_networking/lab_13_async_load_balancer/src/load_balancer.c:103-119 | One read and its write keep that equation. |
| `Balancers.RoundRobinExact` | 03_networking/lab_13_async_load_balancer/src/load_balancer.c:79-80 | After k choices backend b was chosen exactly (k + N - 1 - b) / N times. |
| `Balancers.RoundRobinFair` | 03_networking/lab_10_tcp_load_balancer/load_balancer.c:96-113 | No two backends' shares differ by more than one. |
| `Balancers.RoundRobinCovers` | 03_networking/lab_13_async_load_balancer/src/load_balancer.c:79-80 | Any N consecutive choices choose every backend exactly once. |
| `Balancers.ScanningBalancer.Accept` | 03_networking/lab_10_tcp_load_balancer/load_balancer.c:90-113 | The pair is appended and the cursor moves only if connecting succeeded: choices are counted per success. |
| `Balancers.ScanningBalancer.FindPeer` | 03_networking/lab_10_tcp_load_balancer/load_balancer.c:116-123 | The loop over the table finds the peer of the last pair that names the descriptor. |
| `Balancers.ScanningBalancer.Event` | 03_networking/lab_10_tcp_load_balancer/load_balancer.c:115-125 | Data goes to that peer; an unknown descriptor and an empty read do nothing. |
| `Balancers.IndexedBalancer.Accept` | 03_networking/lab_13_async_load_balancer/src/load_balancer.c:75-102 | The cursor moves on every attempt; the two entries are written only if connecting succeeded; otherwise the client is closed. |
| `Balancers.IndexedBalancer.Event` | 03_networking/lab_13_async_load_balancer/src/load_balancer.c:103-120 | Data goes to the peer in the descriptor's entry; an empty read closes both and leaves the entries. |

## Left out

- SIGPIPE is taken as ignored: no server ignores it, so a send or write to a peer that has reset
  kills the process; here such a send just fails.
- Memory allocation, pipe, fork, pthread_create and SSL_new always succeed.
- Thread pool: the signal handler calls jobq_close from whatever it interrupted, a lock holder
  included; only the call in main is modelled, a stop request just clears `running`.
- Thread pool: each send_all inside a broadcast completes or its peer is dead; how a single
  send_all behaves otherwise is `Sending.SendAll`. A worker blocked in recv is not forced out.
- Pipelines: descriptors 0 and 1 are open in the shell; terminal control (tcsetpgrp, tcsetattr)
  and the shell's own waitpid loop are not modelled, reaping is one step that may happen any time.
- Pipelines: lab 5 wires its stages as lab 12 does but makes no process groups; the state machine
  has lab 12's setpgid calls, which touch no descriptor.
- Pipelines: commands read their input to the end before they exit, writing as they like on the
  way; programs that stop reading early, such as head, and failing execs are not modelled.
- Pipelines: the job states of lab 12 are left out, because one state stands for many processes
  and getpgid is called on a process that may be gone; the table of lab 11 is modelled instead.
- PipelineSetup.ExecutePipeline: runs the children one after another; interleavings are what the
  Pipeline state machine is for.
- Tokenizer.SplitPipeline: the store past the end of the array is reported, what it overwrites is
  not modelled, so its pointers are those from before that store; reading the line with fgets and
  the "exit" test are left out.
- Tokenizer.RunLine: says nothing about the words when the final NULL is stored out of bounds.
- Job table: statuses consumed by the direct waitpid calls of fg and of foreground commands never
  reach the table and are no events here; the handler runs between steps of the main loop, not in
  the middle of one.
- Room server: sends are taken whole; the client array and the buffer of the /list reply are taken
  to be large enough.
- Registries.RunDense: nobody connects while the array is full; the code does not test for it.
- TLS server: OpenSSL's answers are an oracle with finitely many of them per event; key and
  certificate handling, poll masks and timeouts are left out.
- Load balancers: descriptor numbers fit the indexed table, the scanned table has a free slot,
  accept succeeds in lab 13, and every write is complete; lab 10 never closes a pair, so its runs
  are those without closing.
- Indexed load balancer: epoll reports only descriptors that were connected at some time, and
  nothing else opens or closes descriptors of the process while it runs.
- Semaphores: wrap-around of the semaphore counters; N is a number they can hold.
- Characters stand for bytes; integers do not overflow, except that ChatPoolTheorems.FrameIsWhole
  bounds descriptors by the range of an int.
- Set-up of sockets and of epoll, printing, timestamps, all client programs, loggers, multicast,
  daemons, UDP and kqueue balancing, redirection, the plain shared-memory lab and the command chat
  server: plumbing, near copies of what is modelled, or programs without a property of this kind.
