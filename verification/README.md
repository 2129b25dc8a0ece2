# Verified model of the Telegram forwarder

The forwarder takes Telegram messages in, makes a first attempt to deliver each one, parks failures in
a retry queue and retries them in timed rounds. It keeps a searchable chat history and counters about
its work. This project models that machinery in Dafny and proves what it keeps over every run.

| file | part of the system |
|---|---|
| `Delivery.dfy` | the three goroutines as interleaved atomic steps over channel, queue, metrics and stop signal |
| `Conservation.dfy`, `Attempts.dfy`, `Rounds.dfy`, `LedgerProofs.dfy` | where messages are, how often they are tried, what a retry round does, what the counters say |
| `ChannelOrder.dfy`, `Endings.dfy` | the order of first attempts; how messages end, and how the workers do after a stop |
| `Handler.dfy`, `HandlerProofs.dfy` | the worker loop bodies, imperative, each shown to be a run of those steps |
| `Queue.dfy` | the queue interface and the in-memory queue |
| `LevelDb.dfy`, `LevelDbQueue.dfy` | the key-value store and the durable queue on it |
| `CrashSafety.dfy`, `FifoRefinement.dfy` | torn writes and restarts; when the durable queue is first-in first-out |
| `BagRefinement.dfy`, `TornRefinement.dfy` | what the durable queue is in any key order, and with the remains of a torn push |
| `DurableDelivery.dfy`, `DurableFifo.dfy` | the delivery protocol with the durable queue in it; when that is first-in first-out |
| `DurableRounds.dfy`, `ListedRounds.dfy`, `ListedDelivery.dfy` | a retry round over the durable queue, and exactly when it tries each message once |
| `RoundExactness.dfy` | rounds on contiguous indices, told from size and counter alone, and concrete rounds that fail |
| `ByteOrder.dfy`, `Decimal.dfy` | byte-string order and decimal text, which together decide the order of the durable queue |
| `ChatHistory.dfy`, `HistoryProofs.dfy` | the chat history store and its range queries |
| `Migration.dfy` | the batched repair of stored records |
| `Metrics.dfy` | counters and latency windows |
| `HarmonyText.dfy` | message formatting and what the HarmonyOS notification extracts from it |

## What is proved

- **Delivery.** Over every interleaving each ingested message is in exactly one place: channel, a worker's
  hand, retry queue, the remains of a torn push, delivered, abandoned, dropped on a full channel, lost on a
  refused push, overwritten after a torn one, or lost from memory when the process died. Its `Attempts`
  field counts its failed `processMessage` calls exactly, and no message is processed more than
  max(1, maxAttempts) times. The number of pops is bounded whatever the pop order. On a first-in first-out
  queue a retry round pops exactly the messages it saw, each once, while the first worker keeps pushing;
  without arrivals max(1, maxAttempts) rounds empty the queue. First attempts begin in the order of
  ingestion. A message is lost on a full channel, by a refused or torn push or with the process, and in no
  other way. Once the program is stopped all workers can leave their loops from wherever they are.
- **Durable queue.** Keys are `msg:` and an unpadded decimal, so `msg:10` sorts before `msg:9`. While the
  live indices are contiguous, that is, from `lo = counter - size` up to the counter, the queue hands out
  its oldest message exactly when `counter <= 10^digits(lo)` or `lo <= 10^(digits(lo) - 1)`. From such a
  state a run of operations gives the answers of the in-memory queue exactly when every Pop and Peek in it
  meets that condition, and until then the indices stay contiguous. Over every run the queue answers as one
  that hands out some message it holds.
- **Delivery on the durable queue.** With every queue call going to the store, whatever calls fail, whatever
  pushes are torn and wherever the process dies and is restarted, a run is a run of the protocol: so
  conservation and attempt accounting hold, every reply of the store is one the protocol foresees, and the
  number of pops stays bounded. Without torn pushes and restarts such a run is first-in first-out exactly
  when each of its pops meets an ordered range.
- **Rounds on the durable queue.** Let a round meet n messages at counter c on a store with any live
  indices, and let b of them, without the one under the greatest key, be below the retry limit. It pops each
  of them once, for every pattern of failures and of at most a messages queued meanwhile, exactly when that
  greatest key sorts before the keys of all indices from c to `c + a + b - 1`; then it takes them in the
  order of their keys, however the workers interleave. On contiguous indices and below the limit this can be
  told from size and counter alone: for each t below n the range `lo + t` to `c + a + t` is in order. It is
  not enough that the range is in order when the round starts: after ten pushes and eight pops in a new
  directory, a message that fails is retried at once and the one waiting behind it is not tried in that
  round. Nor do size and counter tell once such a round has left a gap between the live indices, and in the
  same directory the next round fails in the same way.
- **Crashes.** A push is two separate writes. Under any mix of torn pushes, failing calls and restarts each
  acknowledged message is either stored unaltered under its own index or was returned by a Pop, never
  both. An unacknowledged torn message sits at the counter until it is popped or the next push overwrites it.
- **Chat history.** Keys are two unsigned big-endian words. A range query is the plain filter of the saved
  records by chat and time, for every history, exactly when both ends of the range lie on the same side of
  the Unix epoch. The answers of adjacent ranges adjoin under the same condition, or when one is empty.
  No stored text has a replacement character, and every other text is stored as it is.
- **Migration.** A run without faults gives each nameless record of a configured chat that chat's name,
  replaces each text with a replacement character and changes nothing else. Batching does not matter, a
  dry run reports the numbers of the real run, and any number of runs that were killed, lost writes, failed
  to encode records or stopped at an iterator error, followed by one complete run, equals one undisturbed
  run.
- **Text.** The notification extractor undoes the formatter, up to one trailing `】`, exactly when no `]`
  followed by a newline stands in the sender or in the group name after its first `】[`. If names and text
  contain no S3 link, an uploaded link is recovered whole exactly when it begins with the address the
  extractor looks for and has neither a `)` nor a newline; one with that address and no newline always up
  to its first `)`. A message in which the scan finds no link gives the same notification with S3
  configured and without.

## Where code and documentation differ

- `docs/migrate.md:108` says updated records are not updated again. A record without a group name in a chat
  that is not configured gets the empty name and is counted by every run (`Migration.CountedAgain`,
  `Migration.RerunUpdatesNothing`). The model follows the code; the stored data still converges.
- `docs/migrate.md:10` promises a group name for every empty one; the code gives one only to chats in the
  configured list.

## Modelling conventions

- A failing disk, network or encoder is an argument: the `Fault` of a queue call, `writeOk` of a database
  write, the `Faults` of a migration, how far an iterator gets, the `Outcome` of a `processMessage` call.
  Each theorem holds for all of them unless its row says otherwise.
- Mutex-protected methods are atomic. A goroutine's work between two shared accesses is one step.
- Message identities and call counts are part of the protocol state; Telegram message ids are unique only
  within a chat. Identities are given by order of ingestion.
- JSON text is represented by the value it encodes, which assumes that decoding undoes encoding; text that
  does not decode is a separate kind of value.
- Go strings are byte sequences where positions matter (keys, formatting) and character sequences where
  only a replacement character matters (record texts): ranging over a string turns an invalid byte into
  U+FFFD, and so does the model's character sequence.
- Step kinds with one name in two workers differ only in who performs them; `FirstPush(w)` and
  `RetryPush(w)` say what the push has left, and a closed queue takes nothing. Torn pushes and restarts
  are steps of the durable queue only; an in-memory queue would not survive the latter.
- A process that dies between the two writes of a push is a torn push followed by a restart. An update that
  Telegram delivers again after a restart is a new message.

## Model

| member | source | states |
|---|---|---|
| Conservation.StepMoves | internal/handlers/message_handler.go:124-167 | an atomic step of any worker leaves the number of places each message is in unchanged, except that taking in an update adds one place for a new identity |
| Conservation.RestartMoves | internal/handlers/message_handler.go:124-167 | the death of the process moves what it had in memory, and nothing else, to the crashed messages |
| Conservation.WriteMoves | internal/queue/leveldb_queue.go:173-182 | a write to the queue adds its message and overwrites the remains of an earlier torn push |
| Conservation.RunConserves | internal/handlers/message_handler.go:350-362 | whatever steps follow in whatever interleaving, every identity below the ingestion count stays in exactly one place and no other identity appears |
| Conservation.EveryMessageInOnePlace | internal/handlers/message_handler.go:484-524 | from the start of the program, over torn pushes and restarts: no message is duplicated, forgotten or in two workers' hands at once |
| Conservation.ChannelWithinCapacity | internal/handlers/message_handler.go:350-362 | the channel never holds more than 100 messages, and a run that drops messages passes through a state in which it is full |
| Conservation.QueueDistinct | internal/handlers/message_handler.go:484-524 | the stored messages, the remains of a torn push included, are all different |
| ChannelOrder.ChannelIsFirstInFirstOut | internal/handlers/message_handler.go:350-362 | in every reachable state identities ascend in the channel, and what the first worker holds, waits in the queue or was delivered or abandoned came in before all that is in the channel |
| ChannelOrder.FirstAttemptsInOrder | internal/handlers/message_handler.go:129-135 | over any run, restarts included, the first worker takes messages in ascending order of identity, none earlier than one that has left the channel before |
| ChannelOrder.FirstAttemptsInOrderOfIngestion | internal/handlers/message_handler.go:124-135 | from the start of the program first attempts begin in order of ingestion, each message once |
| Endings.StepEnds | internal/handlers/message_handler.go:137-165 | what each step of any worker adds to each list of ended messages, and that it takes nothing away |
| Endings.NothingElseIsLost | internal/handlers/message_handler.go:124-167 | without refused and torn pushes and restarts each ingested message is waiting, in hand, delivered, abandoned or dropped on a full channel, and in exactly one of these |
| Endings.FailedPopEndsRound | internal/handlers/message_handler.go:486-491 | a failed pop ends the round and leaves all messages where they are |
| Endings.RetryWorkerExits | internal/handlers/message_handler.go:443-491 | once stopped and with the queue closed the retry worker reaches its exit by its own steps, in a bounded number of them |
| Endings.StopEndsAllWorkers | internal/handlers/message_handler.go:103-118 | from every reachable state the stop lets all three workers leave their loops |
| Attempts.StepAccounts | internal/handlers/message_handler.go:137-148 | every step keeps the exact relation of Attempts, calls and limit in all places a message can be |
| Attempts.AttemptsAreExact | internal/handlers/message_handler.go:494-522 | in every reachable state a stored message was processed Attempts times, between one and max(1, maxAttempts); a delivered one Attempts+1 times within the limit; an abandoned one exactly the limit |
| Attempts.RunWeighs | internal/handlers/message_handler.go:484-524 | the attempts left in the queue and in the retry worker's hand pay for every pop: each pop costs one, each arrival adds at most the limit, for any pop order |
| Attempts.DrainBound | internal/handlers/message_handler.go:484-524 | successful pops plus messages still stored are bounded by the initial weight plus the limit per arrival, over torn pushes and restarts, so without arrivals draining ends |
| Rounds.RunKeepsShape | internal/handlers/message_handler.go:471-484 | with oldest-first pops, the queue at the size check is at all times the messages already popped in this round followed by the head of the present queue |
| Rounds.OncePerRound | internal/handlers/message_handler.go:471-524 | a round pops different messages in the order of the queue it saw, never runs dry before its count, and at its end has popped exactly that queue, under concurrent pushes |
| Rounds.RunAges | internal/handlers/message_handler.go:506-512 | after r completed rounds without arrivals every circulating message has failed more than r times |
| Rounds.RoundsEmptyTheQueue | internal/handlers/message_handler.go:443-468 | without arrivals there are at most max(1, maxAttempts) completed rounds, and after that many the queue is empty |
| LedgerProofs.FirstDue | internal/handlers/message_handler.go:148-165 | which counters each step of the first worker puts on account, an update made later leaving the account as it is |
| LedgerProofs.RetryDue | internal/handlers/message_handler.go:510-523 | the same for the retry worker, whose refused pushes still count as retries |
| LedgerProofs.RunBalances | internal/metrics/metrics.go:58-79 | counters plus owed updates equal the events of the run at every intermediate state; a reset or restart spoils only equality, not that the retry total covers failed and retried |
| LedgerProofs.LedgerAtRest | internal/metrics/metrics.go:158-204 | between updates, in one lifetime without reset: processed = deliveries, total retries = failed + retried, samples = processed + failed + retried + first failures lost or torn; with resets and restarts total retries >= failed + retried |
| Handler.FirstIterationReaches | internal/handlers/message_handler.go:129-165 | one message through the first worker's loop is a run of protocol steps |
| Handler.RetryIterationReaches | internal/handlers/message_handler.go:484-524 | one iteration of a retry round is a run of protocol steps that pops the oldest message |
| Handler.RoundHandlesEachOnce | internal/handlers/message_handler.go:484-524 | n undisturbed iterations abandon the messages at the limit, deliver the successes and requeue exactly the failures among the first n, in order, each with one more attempt |
| Handler.RoundSorts | internal/handlers/message_handler.go:494-523 | by position: a failed message comes back behind as many as failed before it, with one more attempt; a success is delivered in the same way; the rest are at the limit and abandoned |
| Handler.MessageHandler.constructor | internal/handlers/message_handler.go:38-51 | a new handler is the initial protocol state: nothing waiting, not stopped, the queue open |
| Handler.MessageHandler.SendToChannel | internal/handlers/message_handler.go:350-362 | the non-blocking send puts the message last below 100 waiting ones; otherwise it drops it and the channel stays |
| Handler.MessageHandler.HandleNext | internal/handlers/message_handler.go:129-165 | the loop body of the first worker on the oldest message of the channel: a success is delivered and counted; a failure goes last in the queue with one more attempt and is counted as failed and retried, or is lost on a closed queue; each time one latency sample; and it is a run of protocol steps |
| Handler.MessageHandler.RetryPopped | internal/handlers/message_handler.go:494-523 | the body of a round after its pop: at the limit the message is abandoned; a success is delivered and counted; a failure goes last in the queue with one more attempt and is counted; this is what a complete iteration of the protocol does |
| Handler.MessageHandler.ProcessQueuedMessages | internal/handlers/message_handler.go:471-525 | a whole round: what is requeued, delivered and abandoned, in order; nothing changes on a closed queue; reachable by protocol steps |
| Handler.MessageHandler.RetryTick | internal/handlers/message_handler.go:453-466 | a tick does nothing on an empty or closed queue and one round otherwise: what is requeued, delivered and abandoned, in order |
| Handler.MessageHandler.Stop | internal/handlers/message_handler.go:103-118 | the stop signal, then the closing of the queue, whose messages stay; a second call changes nothing more |
| HandlerProofs.ReachesKeepsInvariants | internal/handlers/message_handler.go:121-168 | conservation, attempt accounting and the shape of rounds carry over to whatever the loop bodies reach |
| Queue.MemoryQueue.Push | internal/queue/memory_queue.go:35-45 | appends unless closed |
| Queue.MemoryQueue.Pop | internal/queue/memory_queue.go:48-63 | removes the oldest, with distinct errors for closed and empty |
| Queue.MemoryQueue.Peek | internal/queue/memory_queue.go:66-79 | the message the next Pop returns, queue unchanged |
| Queue.MemoryQueue.Size | internal/queue/memory_queue.go:82-91 | the number of waiting messages, an error once closed |
| Queue.MemoryQueue.Close | internal/queue/memory_queue.go:94-100 | closes for good, any number of times |
| Queue.FirstInFirstOut | internal/queue/memory_queue.go:35-63 | over any run of operations, what pops returned followed by what still waits is what waited at first followed by what was accepted |
| Decimal.ParseFormat | internal/queue/leveldb_queue.go:153-182 | every int64 counter survives being written as text and parsed |
| Decimal.FormatInjective | internal/queue/leveldb_queue.go:171 | different indices have different texts |
| Decimal.DecimalOrder | internal/queue/leveldb_queue.go:309-310 | text order of decimals of any widths: a number precedes a longer one exactly when it is at most its leading digits |
| ByteOrder.SortStringsOfAscending | internal/queue/leveldb_queue.go:309-310 | sorting what the iterator yields in order changes nothing |
| LevelDbQueue.ListedKeys | internal/queue/leveldb_queue.go:292-313 | the listing is precisely the message keys, in ascending byte order |
| LevelDbQueue.MessageKeyFacts | internal/queue/leveldb_queue.go:171-180 | message keys are recognised by the filter, never clash with the index cell and are injective in the index |
| LevelDbQueue.LevelDBQueue.Create | internal/queue/leveldb_queue.go:125-141 | opening writes the index "0" only if it is found missing, fails if that write fails, and goes on without a cell if the look-up fails otherwise |
| LevelDbQueue.LevelDBQueue.GetMessageKeys | internal/queue/leveldb_queue.go:292-313 | the iterator loop, filter and sort list the message keys in byte order |
| LevelDbQueue.LevelDBQueue.Push | internal/queue/leveldb_queue.go:145-185 | message write, then index write; what each failure leaves behind and which error it gives |
| LevelDbQueue.LevelDBQueue.Pop | internal/queue/leveldb_queue.go:188-224 | removes the least key only when its value was read, decoded and deleted |
| LevelDbQueue.LevelDBQueue.Peek | internal/queue/leveldb_queue.go:227-258 | the message of the least key, without change |
| LevelDbQueue.LevelDBQueue.Size | internal/queue/leveldb_queue.go:261-276 | the number of message keys |
| LevelDbQueue.LevelDBQueue.Close | internal/queue/leveldb_queue.go:279-289 | closes once and for all; only the first call can report a failure |
| CrashSafety.AcknowledgedPushSafe | internal/queue/leveldb_queue.go:174-184 | a push that completes both writes overwrites no acknowledged message and replaces the remains of a torn push |
| CrashSafety.TornPushSafe | internal/queue/leveldb_queue.go:174-182 | a push that stops between its writes touches only the slot at the counter |
| CrashSafety.PopSafe | internal/queue/leveldb_queue.go:207-223 | a Pop, failed or not, loses no acknowledged message it did not return |
| CrashSafety.CrashSafe | internal/queue/leveldb_queue.go:133-184 | over all mixes of calls, faults and restarts the stored messages are the acknowledged and unpopped ones, unaltered, plus at most one torn message at the counter; nothing acknowledged is forgotten |
| CrashSafety.EveryAcknowledgedMessageKeptOnce | internal/queue/leveldb_queue.go:153-223 | from a new directory: each acknowledged message is either in the database under its index or was popped, not both; live indices are at most the counter, equal only with a torn push |
| CrashSafety.PushSafeExactlyBelowMax | internal/queue/leveldb_queue.go:179 | the one push that breaks the index is at the largest int64, where the counter wraps |
| CrashSafety.PushRaisesSize | internal/queue/leveldb_queue.go:171-182 | an acknowledged push raises the size by one exactly when no torn message is in its slot |
| FifoRefinement.OldestFirst | internal/queue/leveldb_queue.go:309-310 | in a contiguous index range the oldest key sorts first if and only if the range is in order |
| FifoRefinement.SameWidthInOrder | internal/queue/leveldb_queue.go:171 | indices with equally many digits are in order |
| FifoRefinement.FirstMessage | internal/queue/leveldb_queue.go:197-207 | a Pop or Peek selects the oldest message exactly on an ordered range, and some waiting message in any case |
| FifoRefinement.OrderedRunRefines | internal/queue/memory_queue.go:35-91 | over an ordered run all replies equal those of the in-memory queue |
| FifoRefinement.DisorderedRunDiverges | internal/queue/leveldb_queue.go:188-258 | a run of distinct messages that meets a disordered range gives a different reply |
| FifoRefinement.RefinesExactlyWhenOrdered | internal/queue/leveldb_queue.go:145-289 | agreement with the in-memory queue over a whole run if and only if the run is ordered |
| FifoRefinement.CreatedMirrorsEmpty | internal/queue/leveldb_queue.go:133-138 | a new durable queue corresponds to the empty in-memory one |
| FifoRefinement.ReachableQueue | internal/queue/leveldb_queue.go:145-224 | every list of waiting messages occurs at every index in a directory used without faults |
| FifoRefinement.RequeuedMessageOvertakes | internal/queue/leveldb_queue.go:171 | concrete failure of first-in first-out: a message requeued at index 10 is popped before the one waiting at 9 |
| BagRefinement.PopTakesOne | internal/queue/leveldb_queue.go:188-224 | in any key order a Pop returns and removes exactly one waiting message, or reports the queue empty |
| BagRefinement.PushAddsLast | internal/queue/leveldb_queue.go:145-185 | a Push finds its index unused, adds its message, disturbs no other and leaves the next index unused |
| BagRefinement.RunAnswersAsBag | internal/queue/leveldb_queue.go:145-289 | over any run without faults all replies are those of a queue that at each Pop and Peek hands out some message it holds |
| BagRefinement.CreatedIsEmptyBag | internal/queue/leveldb_queue.go:133-138 | a new directory holds no message |
| BagRefinement.BagInKeyOrder | internal/queue/leveldb_queue.go:292-313 | whatever its history, the listing of the keys in byte order carries exactly the waiting messages |
| TornRefinement.PushWrites | internal/queue/leveldb_queue.go:145-185 | whatever fails, a push has added its message and overwritten earlier remains, or left its message as remains with an error, or changed nothing with an error |
| TornRefinement.PopTakes | internal/queue/leveldb_queue.go:188-224 | whatever fails, a Pop that answers a message has taken exactly that one of the waiting messages or the remains, and one that fails has changed nothing |
| TornRefinement.SizeCounts | internal/queue/leveldb_queue.go:261-276 | Size counts the waiting messages and the remains of a torn push |
| TornRefinement.ReopenHolds | internal/queue/leveldb_queue.go:125-141 | opening the directory again always succeeds and finds every message where it was |
| DurableDelivery.RunKeepsCoupled | internal/handlers/message_handler.go:124-167 | workers over the store, with any failing calls, torn pushes and restarts, make a run of the protocol whose queue and remains are what the store holds |
| DurableDelivery.EveryReplyIsFollowed | internal/handlers/message_handler.go:484-523 | whatever the store answers to a push, pop or size call of a worker, there is an enabled step of the protocol for it, and a restart is possible at any point |
| DurableDelivery.DurableDrainBound | internal/handlers/message_handler.go:484-524 | on the durable queue, whatever its order and whatever fails, is torn or restarted, pops plus messages still stored are bounded by the initial weight plus the limit per arrival |
| DurableDelivery.DurablePopsBounded | internal/handlers/message_handler.go:484-524 | from a new directory: at most max(1, maxAttempts) pops for each message that ever reached the store |
| DurableDelivery.DurableConservation | internal/handlers/message_handler.go:124-167 | from a new directory, over every failing call, torn push and restart: each ingested message in exactly one place, the stored ones under the message keys, attempts exact and within the limit |
| DurableFifo.OrderedMovesAreFifo | internal/handlers/message_handler.go:484-524 | if no push is torn and every pop meets an ordered range of indices the run is first-in first-out and the store mirrors the queue throughout |
| DurableFifo.FifoExactlyWhenOrdered | internal/handlers/message_handler.go:484-524 | from a store that mirrors the queue: the run is first-in first-out if and only if no push is torn, there is no restart and every pop meets an ordered range |
| DurableFifo.DurableOncePerRound | internal/handlers/message_handler.go:471-524 | once-per-round on the durable queue under that condition, with concurrent pushes and failing calls |
| DurableFifo.DurableRoundsEmptyTheQueue | internal/handlers/message_handler.go:443-468 | under that condition and without arrivals max(1, maxAttempts) rounds empty the durable queue |
| DurableFifo.OrderedRoundTakesItsQueue | internal/handlers/message_handler.go:471-524 | on contiguous live indices a round ordered by its size, the counter and the number of arrivals is first-in first-out and pops exactly the queue it saw, in order, whatever fails short of a torn push and however the pushes interleave |
| DurableRounds.ProcessQueuedMessages | internal/handlers/message_handler.go:471-525 | the loop of a retry round over the durable queue pops the messages and leaves the store that the specified round does |
| DurableRounds.OrderedRoundPops | internal/handlers/message_handler.go:484-524 | on contiguous live indices, after t turns of an ordered round the first t messages have been popped, in order, and the store holds the others followed by what came back or arrived |
| DurableRounds.FailuresComeBack | internal/handlers/message_handler.go:494-512 | by position: an undisturbed ordered round leaves exactly the messages that were tried and failed, each with one more attempt, in the order in which they were tried |
| ListedRounds.OnceExactlyWhenKeysFirst | internal/handlers/message_handler.go:471-524 | over any store: a round pops each message it met exactly once, for every pattern of failures and of at most a arrivals, if and only if the greatest listed key sorts before each of the next a + b indices, b counting the other messages below the limit |
| ListedRounds.ListedRoundPops | internal/handlers/message_handler.go:484-524 | under that condition, after t turns the messages under the first t listed keys have been popped, in that order, and nothing else |
| ListedRounds.WorstRoundKeysFirst | internal/queue/leveldb_queue.go:309-310 | if even the worst round, with all arrivals at its start and every attempt failing, pops each message once, that condition holds |
| ListedRounds.BagIsListed | internal/queue/leveldb_queue.go:292-313 | every store a run can leave, whatever the gaps between its indices, is one the condition speaks of |
| ListedDelivery.ListedRoundTakesItsQueue | internal/handlers/message_handler.go:471-524 | under the same condition a round of the protocol, interleaved with the other workers, takes exactly the messages of its queue in the order of their keys, each once |
| RoundExactness.OnceExactlyWhenOrdered | internal/handlers/message_handler.go:484-524 | on contiguous live indices a round over messages below the limit pops each exactly once, for every pattern of failures and of at most a arrivals, if and only if it is ordered |
| RoundExactness.OncePerRoundExactly | internal/handlers/message_handler.go:471-524 | for queues at contiguous indices: the sizes, counters and numbers of arrivals for which every round pops its messages once, whatever these are, the limit and the failures |
| RoundExactness.WorstRoundOutranks | internal/queue/leveldb_queue.go:309-310 | on contiguous live indices and below the limit: if even the worst round pops each message once, no message that comes back or arrives has a key before any of theirs |
| RoundExactness.OutrankOrdered | internal/queue/leveldb_queue.go:171 | that order of keys implies, through the widths of decimals, that every pop of the round meets an ordered range |
| RoundExactness.RoundRetriesTwice | internal/handlers/message_handler.go:484-508 | concrete failure from a new directory: a failed message is popped twice in one round that starts on an ordered range, and the waiting one not at all |
| RoundExactness.GapSpoilsOrderedRound | internal/handlers/message_handler.go:471-508 | concrete failure of size and counter, reached from a new directory: with the live indices 9 and 11 and counter 12 both tell of order, and the round pops the younger message twice and the waiting one not at all |
| ChatHistory.MakeKeyBuffer | internal/storage/chat_history.go:219-224 | the buffer filled in place holds the two big-endian words |
| ChatHistory.KeyOrder | internal/storage/chat_history.go:219-224 | byte order of keys is the order of the pair of unsigned conversions, and keys are injective |
| ChatHistory.ChatHistoryStorage.SaveMessage | internal/storage/chat_history.go:50-69 | overwrites a text with U+FFFD in the caller's record by "Emoji 解析失败", keeps any other, and stores the record under its key, or nothing if the write fails |
| ChatHistory.ChatHistoryStorage.QueryMessages | internal/storage/chat_history.go:72-101 | the iterator loop decodes the key range in order and fails as soon as one value does not decode or the iterator fails |
| ChatHistory.ChatHistoryStorage.QueryMessagesByUser | internal/storage/chat_history.go:104-118 | the selection loop over the full answer |
| HistoryProofs.StoredLastSaves | internal/storage/chat_history.go:50-69 | after any saves the store holds exactly the last save per chat and time, with sanitised text |
| HistoryProofs.SavedRecord | internal/storage/chat_history.go:50-69 | the last save per chat and time leaves the record itself, its text kept without U+FFFD and "Emoji 解析失败" with it |
| HistoryProofs.StoredTextsAreClean | internal/utils/message.go:6-12 | no stored text contains U+FFFD, whatever was saved |
| HistoryProofs.QueryFailsExactly | internal/storage/chat_history.go:86-100 | a query fails if and only if some value in its key range does not decode |
| HistoryProofs.QueryByUnsignedTime | internal/storage/chat_history.go:72-101 | exact content and order of every range query, by unsigned time, with no other chat's record |
| HistoryProofs.QueryIsFilter | internal/storage/chat_history.go:72-101 | on one side of the epoch a query is the filter of the log by chat and start <= time < end, in ascending time |
| HistoryProofs.EpochStraddlingQuery | internal/storage/chat_history.go:76-83 | concrete failure: across the epoch a single record at the start of the range is returned exactly when it is not in the range |
| HistoryProofs.QueryRightExactlyOnOneSide | internal/storage/chat_history.go:72-101 | a range is answered rightly for every history if and only if both ends have the same sign |
| HistoryProofs.AdjacentQueries | internal/storage/chat_history.go:72-101 | the answers for a..b and b..c, one after the other, are the answer for a..c, error cases included |
| HistoryProofs.AdjacentExactlyOnOneSide | internal/storage/chat_history.go:72-101 | for a <= b <= c the answers adjoin in every store if and only if a and c have the same sign or one range is empty |
| HistoryProofs.StraddlingDoNotAdjoin | internal/storage/chat_history.go:76-83 | concrete failure: a record returned by one of two adjacent ranges and not by the joint range across the epoch |
| HistoryProofs.UserQueryIsFilter | internal/storage/chat_history.go:104-118 | the per-user answer is that user's part of the log in the range, still ascending in time |
| Migration.Migrate | cmd/migrate/main.go:61-137 | the imperative loop with its thousand-record batches leaves what the specified run does, for all faults and wherever the iterator stops; a complete faultless run keeps each record but for an empty name, which becomes that of a configured chat, and a text with U+FFFD; the totals of a complete run are the records and those lacking a name or with such a text, whatever fails |
| Migration.SanitizeIdempotent | cmd/migrate/main.go:27-33 | sanitising twice is sanitising once |
| Migration.MigrationIsRecordMap | cmd/migrate/main.go:69-126 | with successful writes the final database is the repair of each record on its own; what does not decode and the key set stay |
| Migration.MigrateOutcome | cmd/migrate/main.go:69-137 | the database of a dry run and of a complete faultless run, and the two totals for all faults, without the functions that compute them |
| Migration.PendingBatch | cmd/migrate/main.go:107-116 | with records that encode, the batch holds at every point exactly the updates since the last multiple of 1000, whether or not writes succeed |
| Migration.LoopCounts | cmd/migrate/main.go:69-98 | whatever fails, and in a dry run, the statistics are the numbers of records seen and of updates they call for |
| Migration.DryRunChangesNothing | cmd/migrate/main.go:105-137 | a dry run leaves the database alone and reports the totals of a real run, whatever fails in that one |
| Migration.LoopRepairsPartly | cmd/migrate/main.go:69-120 | wherever the loop is stopped and whichever writes failed, each record is untouched or fully repaired |
| Migration.InterruptedMigrationConverges | cmd/migrate/main.go:69-130 | any series of runs that were killed, stopped by the iterator, or lost writes or encodings, then one complete run, equals one undisturbed run |
| Migration.CountedAgain | cmd/migrate/main.go:84-87 | a repaired record needs another update exactly when it had no name and its chat is not configured |
| Migration.RerunUpdatesNothing | cmd/migrate/main.go:84-99 | a run over a migrated database reports zero updates exactly when every nameless record has a configured name |
| Migration.QueryAfterMigration | cmd/migrate/main.go:107 | range queries answer the same records in the same order after the migration, repaired |
| Metrics.QueueMetrics.constructor | internal/metrics/metrics.go:32-40 | all counters start at zero and the minute window at the creation time |
| Metrics.QueueMetrics.AddMessageLatency | internal/metrics/metrics.go:82-102 | the total grows by the latency; the window drops its oldest sample from 100 on; the minute counter restarts at one after a minute; and the three stay those of the whole history |
| Metrics.QueueMetrics.ResetCounters | internal/metrics/metrics.go:197-204 | three counters return to zero, the retry total and the windows do not |
| Metrics.SampleAppended | internal/metrics/metrics.go:86-101 | sliding the window by one sample equals taking the last 100 of the longer history |
| Metrics.MinuteRateCountsSinceWindowStart | internal/metrics/metrics.go:94-101 | under a monotone clock the minute counter is the number of samples since the window start, the opening one included, and the window is under a minute old |
| HarmonyText.HarmonyContent | internal/handlers/message_handler.go:571-621 | the step by step rewriting of the content, with its scan for a link, computes the notification the following rows characterise on every path |
| HarmonyText.NotificationWithoutLink | internal/handlers/message_handler.go:601-621 | for any content in which no link is found: which headline, brackets and beginning go, in terms of the content itself |
| HarmonyText.FileWithoutLink | internal/handlers/message_handler.go:601-621 | a file message in which no link is found, S3 configured or not and names without newline, shows body and preview, less an opening 【 and what comes before an inner header end |
| HarmonyText.NoLinkNoDifference | internal/handlers/message_handler.go:575-621 | where there is no link to find, the notification does not depend on S3 |
| HarmonyText.LinkOfLine | internal/handlers/message_handler.go:579-596 | a link is found in a line if and only if a closing parenthesis follows its first S3 prefix, and it ends before the first of these |
| HarmonyText.FirstLinkIsFirst | internal/handlers/message_handler.go:577-596 | the scan gives the link of the first line that has one, and none if no line has |
| HarmonyText.ExtractionUndoesFormatting | internal/handlers/message_handler.go:603-621 | extraction gives back the body minus at most one trailing 】 if and only if no ] and newline stands in the sender or in the group name after its first 】[ |
| HarmonyText.ExtractionOfOrdinaryNames | internal/handlers/message_handler.go:335 | it does so whenever neither group name nor sender contains ] and newline, even with 】[ in the group name |
| HarmonyText.BracketsInGroupNameSurvive | internal/handlers/message_handler.go:615-617 | concrete failure: a group name for which part of the header stays in the notification |
| HarmonyText.LinkOfMarkdown | internal/handlers/message_handler.go:575-598 | for any names, text and link the notification carries the first link of an earlier line, or else what the scan finds in the preview: a link with the S3 prefix and no newline up to its first closing parenthesis |
| HarmonyText.ImageLinkRecovered | internal/handlers/message_handler.go:327-333 | with no S3 link in names and text the uploaded link is recovered whole if and only if it begins with the S3 prefix and has neither newline nor closing parenthesis |
| HarmonyText.ImageLinkUpToParen | internal/handlers/message_handler.go:575-598 | with no S3 link in names and text a link with the prefix and no newline is carried up to its first closing parenthesis |
| HarmonyText.WholeLinkShape | internal/handlers/message_handler.go:575-621 | whatever the message, a notification never carries whole a link of another shape |
| HarmonyText.MarkdownWithoutS3 | internal/handlers/message_handler.go:604-611 | without S3 a file message loses its first line before extraction, which is exactly its heading unless a name contains a newline |

## Left out

- Handler.MessageHandler.ProcessQueuedMessages: runs a round undisturbed by the other workers; disturbed rounds are covered by the steps of `Delivery` and the theorems of `Rounds`, and by `DurableFifo`, `ListedRounds` and `ListedDelivery` for the durable queue.
- Handler.MessageHandler.HandleNext: the handler methods use the in-memory queue; over the durable queue the workers are the moves of `DurableDelivery`, and the round is `DurableRounds.ProcessQueuedMessages`.
- Handler.MessageHandler.RetryPopped: the queue is not closed between the pop and the push; that interleaving is covered by the steps of `Delivery`.
- DurableRounds.ProcessQueuedMessages: runs undisturbed and without failing database calls; other workers and failing calls are covered by `DurableDelivery` and `ListedDelivery`.
- ListedRounds.OnceExactlyWhenKeysFirst: says nothing of a store that holds the remains of a torn push when the round starts, or of a round in which a push is torn; `DurableDelivery` covers what survives these.
- The retry limit is the same before and after a restart.
- Migration.PendingBatch: says nothing of a run in which a record fails to encode; `LoopCounts` and `InterruptedMigrationConverges` cover it.
- CrashSafety.CrashSafe: holds for runs shorter than 2^63 events; `PushSafeExactlyBelowMax` shows that the wrap at the largest int64 is the only exception.
- Metrics.QueueMetrics.AddMessageLatency: durations and counters are unbounded integers; their int64 overflow is not modelled.
- Telegram, DingTalk, Feishu, Bark, HarmonyOS and S3 clients: network calls; `processMessage` succeeds or fails in either way.
- The Feishu file link: the scan looks for lines starting with `http`, which the formatter never produces for an uploaded file.
- JSON and CSV encoding, including the replacement of invalid UTF-8 by the encoder and the year range of timestamps.
- LevelDB internals, lock files, directory permissions, recovery of corrupted files: single writes and batches are atomic and iterators are snapshots.
- Times outside the range of 64-bit nanoseconds, for which Go leaves the conversion undefined.
- Sharing of message objects between workers and the in-memory queue: a worker does not touch a message after pushing it, so messages are values here.
- Chat title, last-attempt time and content of messages in the protocol: they influence no step of it.
- The getters and the 95th percentile of the metrics: they only read; the percentile is taken from an unsorted window.
- Configuration, logging, HTTP handlers, reporter, packaging, `forwardToDingTalk` and the unused bot path.
