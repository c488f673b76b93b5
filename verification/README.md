# easydispatch: a verified model of its planning, stock and retry cores

easydispatch plans field-service jobs. Several planner processes share one Kafka topic and one
Redis database; a web application stores jobs and inventory. The modules here model the parts of
it where state meets concurrency or arithmetic, and prove what those parts promise. Run
`dafny verify dfyconfig.toml`.

| module | what it models |
|---|---|
| `ReplayProtocol`, `ReplaySolo`, `ReplayLimits`, `ReplayLoop` | recommenders replaying an ordered log under a high-water mark and a lock, as a step machine, and the consumer loop as a run of it |
| `PlanningEnv`, `JobHistory`, `Rereading` | an environment's job planning state as a fold over messages, passes that end at exceptions, and what a second reading changes |
| `Batching` | posting in messages of twenty, and consuming them |
| `SlotCache` | Redis working-time slots and every instance's own copy |
| `Unplanning`, `Availability`, `Prediction` | the heuristic agent: making room, customer availability, search bound and ranking |
| `StockRows`, `StockLedger` | inventory rows, and the job state machine that drives them |
| `FilterSpec` | the compiler from lists of filters to a nested specification |
| `RetryBackoff` | the expiring sorted set that spaces automatic planning attempts |
| `TokenCodec` | padding and escaping around a cipher and base64 |
| `TravelCache` | the shared least-recently-used cache in front of the distance router |
| `StableSort`, `Common` | shared by the above |

Loops and objects of the source are methods and classes here. Each is proved against a
specification function (`Step`, `Apply`, `After`, `Net`, `Finish`, `Compile`, `Poll`, `Call`, ...),
and the lemmas say what those functions mean.

Where the model follows the code against its comments or against what one may expect:

- The test of the high-water mark is not under the lock, and a refused lock still moves the
  cursor. So an offset can be replayed once per recommender, the mark can move back, and a refused
  message can be lost, as can one whose processing raises. A life begins at the last offset the
  database knows, which may lie beyond the mark; what it jumps over is recorded. The lemmas say
  exactly when each of these can happen.
- An entry that raises ends its message for good: the Kafka consumer has moved past it, while the
  window offset has not. So a second reading can stop where the first did not.
- A job that is written before it is made ignores the write when the log is read first, and not the
  second time. `JobHistory` says exactly for which sequences of kinds of entries that can matter.
- The planning horizon moves with the clock. An update that was skipped because its job started
  beyond the horizon creates the job when it is read again later, and may so make a later entry
  raise. The theorems give the second reading its own clock.
- `from_item_list_to_dict` keeps the last line of a code, while a replenishment adds all lines.
  `OverriddenLinesAreLost` says when the two agree.
- The finish endpoints commit the deduction before the job. "Each finished job is counted exactly
  once" holds when no update fails in between, and `FailedFinishIsTakenAgain` says what happens
  when one does. The deducted items are those stored before the update that finishes the job; the web
  client always sends the job's form data along, so old and new lines both occur
  (`DeductsWhatIsStillStoredIff`).
- The shortage branch of a replenishment logs and goes on after the row was changed, so the level is
  conserved and the sign is not.
- The filter compiler's comment says "and" is forced for operations other than equality; the code
  forces it for operators containing `<` or `>` only, so `!=` or `like` do not.
- The attempts bound of `RetryBackoff` uses exact division. Rounding W / 7260 down first would be
  wrong: the last attempt of one lifetime and the four of the next can lie within 6001 seconds
  (`FiveWithinOneLifetime`).
- `update_job` builds its shortage message from a name that does not exist there. It raises either
  way, so the transaction is rolled back all the same.

## Model

| member | source | states |
|---|---|---|
| `ReplayProtocol.EveryPassedOffsetIsReplayed` | src/dispatch/plugins/kandbox_planner/data_adapter/kafka_adapter.py:978-1009 | Any number of recommenders, any interleaving, starts, restarts, exceptions and lock expiries: an offset that a cursor has passed or the mark has reached was replayed with mutation, refused the lock by somebody, failed on by somebody, or jumped over by a life that began beyond it while the mark was below it. |
| `ReplayProtocol.StepCovers` | src/dispatch/plugins/kandbox_planner/data_adapter/kafka_adapter.py:978-1009 | Every single step keeps this: all offsets below a cursor or the mark, and those handled but not yet advanced over, were replayed, refused, failed on or jumped over. |
| `ReplayProtocol.RunCovers` | src/dispatch/plugins/kandbox_planner/data_adapter/kafka_adapter.py:978-1009 | The same over whole runs from any start offsets. |
| `ReplayProtocol.ReplaysExcludeEachOther` | src/dispatch/plugins/kandbox_planner/data_adapter/kafka_adapter.py:978-1009 | Two lives are inside the locked part together only if the lock expired under one of them. |
| `ReplayProtocol.StepGuards` | src/dispatch/plugins/kandbox_planner/data_adapter/kafka_adapter.py:978-1009 | Every step keeps lives distinct and gives each life in the locked part either the lock or a recorded expiry. |
| `ReplayProtocol.LockIsGivenBack` | src/dispatch/plugins/kandbox_planner/data_adapter/kafka_adapter.py:984-996 | In every run, whoever holds the lock is a reader inside the locked part, or a life that ended there: a replay gives the lock back whether it commits or raises. |
| `ReplayProtocol.StepGivesTheLockBack` | src/dispatch/plugins/kandbox_planner/data_adapter/kafka_adapter.py:984-996 | Every step keeps that. |
| `ReplayProtocol.LockChanges` | src/dispatch/plugins/kandbox_planner/data_adapter/kafka_adapter.py:984-996 | The lock is taken only while it is free; it comes free only when its holder releases it or fails, or by expiry; a reader that releases or fails does not hold it afterwards. |
| `ReplayProtocol.OnlyTheLogIsHandled` | src/dispatch/plugins/kandbox_planner/data_adapter/kafka_adapter.py:958-978 | In every run nothing is replayed, applied, refused or failed on before it is in the log. |
| `ReplayLimits.OverlapNeedsAnExpiry` | src/dispatch/plugins/kandbox_planner/data_adapter/kafka_adapter.py:984-996 | Replays overlap only in runs in which the lock expires, and with at least two recommenders at the mark an expiry without any refusal, exception or restart is enough. |
| `ReplayProtocol.ReplayBound` | src/dispatch/plugins/kandbox_planner/data_adapter/kafka_adapter.py:978-1009 | One offset is replayed at most (recommenders + restarts) times, although the mark may move back. |
| `ReplayProtocol.StepOncePerLife` | src/dispatch/plugins/kandbox_planner/data_adapter/kafka_adapter.py:978-1009 | Every step keeps: a life takes offsets strictly upwards, so replays of an offset are as many as the lives that replayed it. |
| `ReplayProtocol.LifeInOrder` | src/dispatch/plugins/kandbox_planner/data_adapter/kafka_adapter.py:978-1009 | Within one life the messages are met in strictly increasing offset order, whether replayed, applied or refused. |
| `ReplaySolo.SoloReplaysExactlyOnce` | src/dispatch/plugins/kandbox_planner/data_adapter/kafka_adapter.py:978-1009 | One recommender, restarted anywhere, never refused and never failing: an offset up to the mark was replayed at most once plus once per death between processing and commit; if no life began beyond it exactly so, and exactly once if and only if there was no such death. |
| `ReplaySolo.SoloReplaysInOrder` | src/dispatch/plugins/kandbox_planner/data_adapter/kafka_adapter.py:978-1009 | The same runs apply an offset without mutation only after it was replayed or jumped over, and replay in offset order if no life began more than one past the mark. |
| `ReplaySolo.LosslessReplaysIncrease` | src/dispatch/plugins/kandbox_planner/data_adapter/kafka_adapter.py:978-1009 | One recommender that loses no commit replays in strictly increasing order, whatever it jumps over, is refused or fails on. |
| `ReplaySolo.JumpAndLossBreakTheOrder` | src/dispatch/plugins/kandbox_planner/data_adapter/kafka_adapter.py:978-1009 | With both a jump and a lost commit the order breaks: a run replays an offset after a higher one. |
| `ReplaySolo.LoneLifeReplaysUnlessMissed` | src/dispatch/plugins/kandbox_planner/data_adapter/kafka_adapter.py:978-1009 | A lone life without restarts has replayed an offset it met above the mark if and only if it was neither refused the lock for it nor failed on it. |
| `ReplaySolo.LoneMarkNeverFalls` | src/dispatch/plugins/kandbox_planner/data_adapter/kafka_adapter.py:979-990 | With one recommender no step lowers the mark, whatever is refused, expires or restarts. |
| `ReplayLimits.MarkCanMoveBackIff` | src/dispatch/plugins/kandbox_planner/data_adapter/kafka_adapter.py:979-990 | From recommenders at the mark with two messages to read, a run without refusal, exception, expiry or restart can lower the mark if and only if there are at least two of them. |
| `ReplayProtocol.CountsOfStep` | src/dispatch/plugins/kandbox_planner/data_adapter/kafka_adapter.py:978-1009 | Only processing adds a replay of an offset, and only a death between processing and commit adds a lost commit. |
| `ReplayLimits.TurnRuns` | src/dispatch/plugins/kandbox_planner/data_adapter/kafka_adapter.py:978-1009 | A granted turn ends with the lock free, the mark at the message and one more replay recorded. |
| `ReplayLimits.FailedTurnRuns` | src/dispatch/plugins/kandbox_planner/data_adapter/kafka_adapter.py:984-988 | A granted turn in which processing raises ends with the lock free, the mark where it was, and a failure recorded. |
| `ReplayLimits.ReplayBoundIsReached` | src/dispatch/plugins/kandbox_planner/data_adapter/kafka_adapter.py:979-984 | The bound is tight: N recommenders, all of which test before any commits, replay one message N times with no refusal, exception, expiry or restart. |
| `ReplayLimits.RefusalLosesTheMessage` | src/dispatch/plugins/kandbox_planner/data_adapter/kafka_adapter.py:997-1009 | After one refusal a lone recommender stands behind the message, the mark has not moved, and the message was refused and not replayed. |
| `ReplayLoop.EnvConsumer.ConsumeEnvMessages` | src/dispatch/plugins/kandbox_planner/data_adapter/kafka_adapter.py:958-1015 | The imperative loop of one consumer, with any other instances acting between any two of its steps: what happens is a run of the step machine, and this consumer's part of it is one complete turn (applied, replayed, refused or failed) for each message; only the last message of a pass can have raised, which ends it, and the window offset is then that message's, else one past the last. |
| `ReplayLoop.EnvConsumer.Handle` | src/dispatch/plugins/kandbox_planner/data_adapter/kafka_adapter.py:978-1007 | One message: tested against the mark, then applied, refused, failed on or replayed, amid what the others do. |
| `ReplayLoop.EnvConsumer.ReplayUnderLock` | src/dispatch/plugins/kandbox_planner/data_adapter/kafka_adapter.py:984-990 | Acquire, process, commit and release in this order, after which this consumer no longer holds the lock; a lock that expired and belongs to somebody else is left alone. |
| `ReplayLoop.EnvConsumer.FailUnderLock` | src/dispatch/plugins/kandbox_planner/data_adapter/kafka_adapter.py:984-988 | When processing raises, this consumer no longer holds the lock afterwards, its own steps are the acquisition and the failure, and so nothing is committed. |
| `ReplayLoop.PerformedRuns` | src/dispatch/plugins/kandbox_planner/data_adapter/kafka_adapter.py:978-1009 | What the others are allowed to do is a run of steps of theirs. |
| `ReplayLoop.EveryRunCanBePerformed` | src/dispatch/plugins/kandbox_planner/data_adapter/kafka_adapter.py:978-1009 | And every run of theirs is allowed: the loop is proved amid any interference. |
| `ReplayLoop.OthersKeep` | src/dispatch/plugins/kandbox_planner/data_adapter/kafka_adapter.py:978-1009 | Whatever the others do leaves a reader's cursor and phase alone. |
| `PlanningEnv.Environment.CreateJobHandler` | src/dispatch/plugins/kandbox_planner/data_adapter/kafka_adapter.py:543-564 | A creation adds the encoded job only if the code is new and the entry can be encoded; exceptions are caught. |
| `PlanningEnv.Environment.RescheduleHandler` | src/dispatch/plugins/kandbox_planner/data_adapter/kafka_adapter.py:626-673 | A known job is replaced as a whole exactly when one of status, start and workers differs, duration included; an exception exactly when the entry of a known job cannot be encoded. |
| `PlanningEnv.Environment.UpdateHandler` | src/dispatch/plugins/kandbox_planner/data_adapter/kafka_adapter.py:566-624 | Of an unknown job: it is there afterwards if and only if the entry can be encoded and its start lies before the end of the horizon, and then as encoded; an exception exactly when the start cannot be compared. Of a known job: replaced exactly when status, start or workers differ, an exception exactly when encoding raises, nothing for an invalid entry. |
| `PlanningEnv.UpdateMakesJobIff` | src/dispatch/plugins/kandbox_planner/data_adapter/kafka_adapter.py:566-582 | An update makes a lacking job if and only if it can be encoded and starts before the horizon ends, makes it as encoded, and changes no other job. |
| `PlanningEnv.LaterHorizonMakesToo` | src/dispatch/plugins/kandbox_planner/data_adapter/kafka_adapter.py:572-574 | Under a later horizon an entry does the same, or is an update that makes its job where it made none before: it never makes less. |
| `PlanningEnv.Environment.RefreshHandler` | src/dispatch/plugins/kandbox_planner/data_adapter/kafka_adapter.py:675-695 | A refresh overwrites all four fields of a known job. |
| `PlanningEnv.Environment.ApplyHandler` | src/dispatch/plugins/kandbox_planner/data_adapter/kafka_adapter.py:867-931 | Each kind of entry goes to its handler; a raising one has changed nothing. |
| `PlanningEnv.Environment.ProcessEnvMessage` | src/dispatch/plugins/kandbox_planner/data_adapter/kafka_adapter.py:867-931 | Own messages are skipped; of any other the entries before the first raising one take effect, in order. |
| `PlanningEnv.Environment.ConsumeEnvMessages` | src/dispatch/plugins/kandbox_planner/data_adapter/kafka_adapter.py:964-1009 | One pass from where the Kafka consumer stands, with the horizon where the clock puts it at each entry: the jobs and whether it raised; the consumer ends behind the raising message, the window offset behind the last message handled to its end. |
| `PlanningEnv.ReadIsHandle` | src/dispatch/plugins/kandbox_planner/data_adapter/kafka_adapter.py:912-931 | A pass over messages does to the jobs what one message with all the entries the instance sees would do, exceptions included. |
| `PlanningEnv.PassesDrain` | src/dispatch/plugins/kandbox_planner/data_adapter/kafka_adapter.py:964-1009 | A pass and then passes over what it left come to draining the log, where each raising message loses the rest of its own payload. |
| `PlanningEnv.DecodableNeverRaises` | src/dispatch/plugins/kandbox_planner/data_adapter/kafka_adapter.py:912-931 | A payload whose entries can all be encoded and compared never raises and is applied to its end. |
| `PlanningEnv.HandledIsEffective` | src/dispatch/plugins/kandbox_planner/data_adapter/kafka_adapter.py:912-931 | A payload leaves what its entries before the first raising one leave. |
| `PlanningEnv.DrainedIsEffective` | src/dispatch/plugins/kandbox_planner/data_adapter/kafka_adapter.py:964-1009 | All passes over a log leave what each visible payload's entries before its raising one leave, in order. |
| `JobHistory.ProjectAll` | src/dispatch/plugins/kandbox_planner/data_adapter/kafka_adapter.py:892-931 | The fold over the whole dictionary is, for each job, a fold over that job alone. |
| `JobHistory.LastWriterWins` | src/dispatch/plugins/kandbox_planner/data_adapter/kafka_adapter.py:639-692 | After any entries that take effect a job's status, start and workers are those of the last one that counts for it, and its duration that of the last one that changed the three, refreshed the job or created it. |
| `JobHistory.LastWriterOfAPass` | src/dispatch/plugins/kandbox_planner/data_adapter/kafka_adapter.py:892-931 | After one pass of the consumer over any log, the entries that count are the visible ones before the first that raises. |
| `JobHistory.LastWriterOfALog` | src/dispatch/plugins/kandbox_planner/data_adapter/kafka_adapter.py:892-931 | After all passes, they are those of each visible payload before its raising one. |
| `JobHistory.TwiceIsOnce` | src/dispatch/plugins/kandbox_planner/data_adapter/kafka_adapter.py:639-692 | On a job that is there, any stretch of entries may be done twice. |
| `JobHistory.HarmlessUnlessFragile` | src/dispatch/plugins/kandbox_planner/data_adapter/kafka_adapter.py:639-692 | Doing any stretch twice leaves a job as doing it once, unless the job was not there and the stretch is fragile: something writes the job before it is first made (a refresh or two writes, if what makes it can also write), and nothing refreshes it afterwards. |
| `JobHistory.FragileCanChange` | src/dispatch/plugins/kandbox_planner/data_adapter/kafka_adapter.py:639-692 | For every fragile sequence of kinds there are plans with which the second reading changes the job. |
| `Rereading.FragileLogCanChange` | src/dispatch/plugins/kandbox_planner/data_adapter/kafka_adapter.py:892-931 | The converse for the consumer: every payload that can be consumed twice without exception, and is fragile for a job the instance lacks, has a variant of the same shape which, consumed twice without exception, leaves the job otherwise than once. |
| `Rereading.HorizonIsForNewJobs` | src/dispatch/plugins/kandbox_planner/data_adapter/kafka_adapter.py:566-582 | On a job that is there, where the planning horizon ends makes no difference. |
| `Rereading.MakesJobIff` | src/dispatch/plugins/kandbox_planner/data_adapter/kafka_adapter.py:543-582 | What can make a lacking job: a creation that can be encoded, and an update that can be encoded and starts before the horizon ends. |
| `Rereading.ReadingLaterMakesNoFewer` | src/dispatch/plugins/kandbox_planner/data_adapter/kafka_adapter.py:566-582 | The same entries read with later horizons, from no fewer jobs, never leave fewer jobs. |
| `Rereading.SecondReadingOfOneJob` | src/dispatch/plugins/kandbox_planner/data_adapter/kafka_adapter.py:566-624 | For one job that was there or whose stretch is not fragile: a second reading with the horizon anywhere leaves what the first left if and only if the job is there after the first, or nothing in the second can make it. |
| `Rereading.RaisesIff` | src/dispatch/plugins/kandbox_planner/data_adapter/kafka_adapter.py:912-931 | A reading raises if and only if an entry cannot be encoded for a job that is there at the start or that an earlier entry makes. |
| `Rereading.SecondReadingStopsIff` | src/dispatch/plugins/kandbox_planner/data_adapter/kafka_adapter.py:912-931 | The second reading, with the horizon where it is by then, of what was once read without exception raises if and only if such an entry is in it. |
| `Rereading.SecondReadingChangesNothingIff` | src/dispatch/plugins/kandbox_planner/data_adapter/kafka_adapter.py:892-931 | Where it does not raise, and no job that was lacking has a fragile stretch, it leaves the jobs of the first reading if and only if no entry it sees can make a job that is still lacking. |
| `Rereading.RereadingIsHarmlessIff` | src/dispatch/plugins/kandbox_planner/data_adapter/kafka_adapter.py:892-931 | An instance has read the log up to m under one clock and later starts at any earlier k under another. The pass raises before m exactly by such an entry; otherwise, if no job it lacked at k has a fragile stretch, it has changed no job by m if and only if no update has come within the horizon for a job still lacking, and then goes on from m with the same jobs and exceptions as if it had started there. |
| `Rereading.OrderlyLogsCanBeReread` | src/dispatch/plugins/kandbox_planner/data_adapter/kafka_adapter.py:892-931 | If in the first reading everything can be encoded and compared and no job is written before it is first made, a later reading from any k never raises before m, and changes nothing if and only if no update has come within the horizon for a job still lacking. |
| `Batching.PostInBatches` | src/dispatch/plugins/kandbox_planner/data_adapter/kafka_adapter.py:278-323 | The payloads concatenate to the known objects in order, hold 1 to 20 each, 20 in all but the last, and number the length over 20 rounded up (the three posting methods share this loop). |
| `Batching.KnownInOrder` | src/dispatch/plugins/kandbox_planner/data_adapter/kafka_adapter.py:278-290 | What is posted: in the place of each code its object if it is known, and nothing otherwise, in the order of the codes. |
| `Batching.BatchesAreOneMessage` | src/dispatch/plugins/kandbox_planner/data_adapter/kafka_adapter.py:892-931 | One pass over the batches leaves the same jobs and raises or not as one message with all entries, for the posting instance (which skips them) and every other. |
| `Batching.LaterBatchesSurvive` | src/dispatch/plugins/kandbox_planner/data_adapter/kafka_adapter.py:912-931 | Over all passes: if nothing raises there is no difference; where a batch raises, one message loses all entries behind, while later batches are still consumed, from the jobs the one message would have left. |
| `Batching.OwnBatchesAreSkipped` | src/dispatch/plugins/kandbox_planner/data_adapter/kafka_adapter.py:868-872 | The instance that posted the batches skips all of them. |
| `Batching.PostAndConsume` | src/dispatch/plugins/kandbox_planner/data_adapter/kafka_adapter.py:278-323 | Posting in batches and consuming in one pass ends as consuming one message with the known entries, each read when it was. |
| `SlotCache.SlotServer.RemoveFromCache` | src/dispatch/plugins/kandbox_planner/env/working_time_slot.py:300-308 | A code leaves the copy only when Redis no longer has it. |
| `SlotCache.SlotServer.GetSlot` | src/dispatch/plugins/kandbox_planner/env/working_time_slot.py:119-140 | The copy agrees with Redis on the code afterwards, and the value returned is Redis's. |
| `SlotCache.SlotServer.SetSlots` | src/dispatch/plugins/kandbox_planner/data_adapter/kafka_adapter.py:824-829 | An update notice brings every named code in line with Redis. |
| `SlotCache.SlotServer.DeleteSlots` | src/dispatch/plugins/kandbox_planner/data_adapter/kafka_adapter.py:831-838 | A delete notice whose slots are of known workers removes the named codes Redis lacks, and no others. |
| `SlotCache.SlotServer.DeleteAndAddBack` | src/dispatch/plugins/kandbox_planner/env/working_time_slot.py:890-979 | After one atomic change, in Redis and in the own copy alike: a code that is added back has its new slot, one that is only deleted is gone, any other is as it was; then the delete notice and the update notice are posted, each if it names a code. |
| `SlotCache.SlotServer.UpdateOwnCopy` | src/dispatch/plugins/kandbox_planner/env/working_time_slot.py:935-979 | In the own copy a code that is added back has its new slot, one that is only deleted is gone, any other is as it was. |
| `SlotCache.RedisHoldsTheLastWrite` | src/dispatch/plugins/kandbox_planner/env/working_time_slot.py:904-925 | After any run of any instances Redis holds under a code what the last change that names the code adds, and nothing if that change only deletes it. |
| `SlotCache.RedisKeepsTheRest` | src/dispatch/plugins/kandbox_planner/env/working_time_slot.py:904-925 | And what it held at the start under a code that no change names. |
| `SlotCache.ConsumeDoes` | src/dispatch/plugins/kandbox_planner/data_adapter/kafka_adapter.py:933-945 | A notice of another instance makes the copy say of each code it names what Redis says, save that a delete notice leaves a code alone that Redis has; an own notice changes nothing. |
| `SlotCache.WriteSettles` | src/dispatch/plugins/kandbox_planner/env/working_time_slot.py:906-925 | Changing Redis keeps: every instance's copy is right about every code or a notice that will correct it is on its way. |
| `SlotCache.PostSettles` | src/dispatch/plugins/kandbox_planner/env/working_time_slot.py:926-933 | Posting the notices keeps it. |
| `SlotCache.ConsumeSettles` | src/dispatch/plugins/kandbox_planner/data_adapter/kafka_adapter.py:933-945 | Consuming a notice keeps it. |
| `SlotCache.OwnSettles` | src/dispatch/plugins/kandbox_planner/env/working_time_slot.py:935-979 | Updating the own copy and looking a slot up keep it. |
| `SlotCache.RunSettles` | src/dispatch/plugins/kandbox_planner/env/working_time_slot.py:890-979 | It holds throughout every run. |
| `SlotCache.DrainedCacheAgrees` | src/dispatch/plugins/kandbox_planner/data_adapter/kafka_adapter.py:824-838 | Any number of instances writing and reading in any interleaving: an instance that has drained the log while no change is under way holds exactly Redis's slots. |
| `SlotCache.DrainedCacheHoldsTheLastWrite` | src/dispatch/plugins/kandbox_planner/data_adapter/kafka_adapter.py:824-838 | What such an instance holds under a code is what the last change that names the code says. |
| `Unplanning.UnplanUntilFeasible` | src/dispatch/plugins/kandbox_planner/agent/kandbox_heuristic_realtime_agent.py:289-317 | The loop: what it unplans is the shortest prefix of the order the dispatcher accepts, or all of the order on failure; each unplanned job has a strictly lower priority than the one being placed, a slot keeps its last code and every job that has not, and after a failure no slot has a job of lower priority ahead of its last code; it answers as the dispatcher does on what is left; nothing is unplanned when unplanning is off; with a monotone dispatcher it fails exactly when the fully stripped slots are infeasible. |
| `Unplanning.UnplanOne` | src/dispatch/plugins/kandbox_planner/agent/kandbox_heuristic_realtime_agent.py:290-314 | One round takes the last lower-priority job of the first slot that has one, or finds none. |
| `Unplanning.FindCandidate` | src/dispatch/plugins/kandbox_planner/agent/kandbox_heuristic_realtime_agent.py:291-311 | Scanning slots left to right: the job found has a lower priority, no later one ahead of its slot's last code has, and no slot before it has any; none is found only if no slot has any. |
| `Unplanning.LastLower` | src/dispatch/plugins/kandbox_planner/agent/kandbox_heuristic_realtime_agent.py:292-309 | The backward scan skips the last code: the job found has a priority below the current one, those between it and the last code have not, and if none is found no job ahead of the last code has. |
| `Unplanning.UnplanningIsComplete` | src/dispatch/plugins/kandbox_planner/agent/kandbox_heuristic_realtime_agent.py:289-322 | With a dispatcher that never fails because jobs were removed, some prefix of the order suffices if and only if stripping everything of lower priority does. |
| `Unplanning.FailureIsFinal` | src/dispatch/plugins/kandbox_planner/agent/kandbox_heuristic_realtime_agent.py:315-322 | With a monotone dispatcher, its answer where the loop stops is its answer on the fully stripped slots. |
| `Unplanning.CandidateIsNext` | src/dispatch/plugins/kandbox_planner/agent/kandbox_heuristic_realtime_agent.py:291-311 | After k removals the job the scan finds is the k-th of the fixed order: slots left to right, last to first inside a slot. |
| `Unplanning.NoCandidateMeansDone` | src/dispatch/plugins/kandbox_planner/agent/kandbox_heuristic_realtime_agent.py:315-317 | When no job is found the order is used up. |
| `Unplanning.AfterThins` | src/dispatch/plugins/kandbox_planner/agent/kandbox_heuristic_realtime_agent.py:299-300 | In every slot the remaining jobs keep their order, the last code stays, and only lower-priority jobs may be missing. |
| `Unplanning.AfterKeepsJobs` | src/dispatch/plugins/kandbox_planner/agent/kandbox_heuristic_realtime_agent.py:298-300 | Remaining and unplanned jobs together are the jobs there were, as multisets. |
| `Unplanning.AfterAll` | src/dispatch/plugins/kandbox_planner/agent/kandbox_heuristic_realtime_agent.py:289-317 | Removing the whole order leaves exactly the stripped slots. |
| `Unplanning.AfterNone` | src/dispatch/plugins/kandbox_planner/agent/kandbox_heuristic_realtime_agent.py:288-289 | Removing nothing leaves the slots as they were. |
| `Unplanning.OrderIsOfLowerPriority` | src/dispatch/plugins/kandbox_planner/agent/kandbox_heuristic_realtime_agent.py:297 | Every job that is ever unplanned is known and has a strictly lower priority than the job being placed. |
| `Unplanning.SlotGivesNext` | src/dispatch/plugins/kandbox_planner/agent/kandbox_heuristic_realtime_agent.py:292-305 | Inside one slot, what is taken after k removals is that slot's k-th removable job. |
| `Unplanning.StillStandsIff` | src/dispatch/plugins/kandbox_planner/agent/kandbox_heuristic_realtime_agent.py:291-314 | After k removals a job still stands in some slot if and only if it was taken out fewer times than it stood there: a job shared by slots can leave one and stay in another. |
| `Unplanning.TriesAreLeast` | src/dispatch/plugins/kandbox_planner/agent/kandbox_heuristic_realtime_agent.py:289-317 | The number of removals is the least that contents the dispatcher, or all of them. |
| `Availability.ClipTimePeriod` | src/dispatch/plugins/kandbox_planner/util/kandbox_date_util.py:114-129 | The result holds exactly the minutes both periods hold. |
| `Availability.ExcludeScheduled` | src/dispatch/plugins/kandbox_planner/agent/kandbox_heuristic_realtime_agent.py:202-222 | The loop over available slots: every minute is covered as often as before outside [start - 60, start + 90) and not at all inside; sorted disjoint input stays sorted and disjoint. |
| `Availability.SubtractionIsExact` | src/dispatch/plugins/kandbox_planner/agent/kandbox_heuristic_realtime_agent.py:208-222 | For any slots and minute, the net slots cover the minute as often as the original ones outside the window and never inside it. |
| `Availability.ExcludedIsExact` | src/dispatch/plugins/kandbox_planner/agent/kandbox_heuristic_realtime_agent.py:209-210 | The clipped parts cover each minute of the window as often as the original slots, and nothing outside it. |
| `Availability.MinutesAreConserved` | src/dispatch/plugins/kandbox_planner/agent/kandbox_heuristic_realtime_agent.py:202-222 | Kept minutes plus excluded minutes are the original minutes. |
| `Availability.NetStaysSorted` | src/dispatch/plugins/kandbox_planner/agent/kandbox_heuristic_realtime_agent.py:208-222 | Sorted and disjoint slots give sorted and disjoint net slots. |
| `Availability.NoEmptySlotAppears` | src/dispatch/plugins/kandbox_planner/agent/kandbox_heuristic_realtime_agent.py:214-222 | An empty net slot was an empty slot of the input. |
| `Availability.NetSlotIsPart` | src/dispatch/plugins/kandbox_planner/agent/kandbox_heuristic_realtime_agent.py:212-222 | Every net slot lies within one of the input slots and carries its other fields. |
| `Availability.SubtractingTwice` | src/dispatch/plugins/kandbox_planner/agent/kandbox_heuristic_realtime_agent.py:202-222 | Excluding the same window again changes nothing. |
| `Prediction.SearchGroup` | src/dispatch/plugins/kandbox_planner/agent/kandbox_heuristic_realtime_agent.py:242-400 | One group, end to end: slots Redis still has are sorted by start and given the job, the dispatcher runs while room is made, then the start is looked up, the rules checked and the score computed; each step that fails drops the group. The key plus half a point for each unplanned job, plus two if overtime is allowed, is the travel score of the slots before and after, and every unplanned job has a lower priority. |
| `Prediction.DispatchGroup` | src/dispatch/plugins/kandbox_planner/agent/kandbox_heuristic_realtime_agent.py:263-317 | The slots left, the jobs unplanned and the dispatcher's answer are those of the shortest sufficient prefix. |
| `Prediction.OutcomeIsSound` | src/dispatch/plugins/kandbox_planner/agent/kandbox_heuristic_realtime_agent.py:289-388 | A recommendation carries the shortest prefix of its group's order that contents the dispatcher and the start found on those slots, has passed the rules with them, unplans jobs of lower priority only, and is scored by travel less half a point for each of them. |
| `Prediction.OutcomeIffSound` | src/dispatch/plugins/kandbox_planner/agent/kandbox_heuristic_realtime_agent.py:242-425 | And conversely: for a group that has slots, an action is what the search comes to if and only if it is sound in this sense; so there is at most one, and if there is one it is found. |
| `Prediction.PreparedIsInOrder` | src/dispatch/plugins/kandbox_planner/agent/kandbox_heuristic_realtime_agent.py:268-274 | A slot is given to the dispatcher with its own jobs, none starting before the one ahead of it, and the job being placed behind them. |
| `Prediction.StartListsAre` | src/dispatch/plugins/kandbox_planner/agent/kandbox_heuristic_realtime_agent.py:245-282 | The dispatcher gets the group's slots that Redis still has, in order, the customer's slot, and a slot with just the job. |
| `Prediction.FoundInOrder` | src/dispatch/plugins/kandbox_planner/agent/kandbox_heuristic_realtime_agent.py:245-254 | In the place of each slot code the jobs Redis has for it, and nothing if Redis has lost the slot, in the order of the codes. |
| `Prediction.DroppedIffStrippedFails` | src/dispatch/plugins/kandbox_planner/agent/kandbox_heuristic_realtime_agent.py:289-322 | With a monotone dispatcher and unplanning on, a group is dropped by the dispatcher if and only if its slots stripped of all lower-priority jobs are infeasible. |
| `Prediction.SearchOnWorkers` | src/dispatch/plugins/kandbox_planner/agent/kandbox_heuristic_realtime_agent.py:242-425 | One candidate gives what its groups come to, in order, cut at the limit (at least one). |
| `Prediction.PredictActions` | src/dispatch/plugins/kandbox_planner/agent/kandbox_heuristic_realtime_agent.py:526-543 | The answer is the stable permutation, scores descending, of what the shortest sufficient prefix of candidates gave; of two actions with the same travel score the one that unplans fewer jobs stands ahead; 2n - 1 at most for n >= 1, empty for n <= 0, every entry sound for a group of a searched candidate. |
| `Prediction.RankingPrefersFewer` | src/dispatch/plugins/kandbox_planner/agent/kandbox_heuristic_realtime_agent.py:384-388 | In any ranking by descending score: where the travel scores are equal the action that unplans fewer jobs is ahead, and where as many are unplanned the one with the higher travel score. |
| `Prediction.AllFoundInOrder` | src/dispatch/plugins/kandbox_planner/agent/kandbox_heuristic_realtime_agent.py:526-542 | What is found stands in the order of the candidates before it is ranked. |
| `Prediction.ActionsInOrder` | src/dispatch/plugins/kandbox_planner/agent/kandbox_heuristic_realtime_agent.py:242-425 | And for one candidate in the order of its groups. |
| `Prediction.FoundByIs` | src/dispatch/plugins/kandbox_planner/agent/kandbox_heuristic_realtime_agent.py:415-425 | A candidate gives its first n results or all of them, and at least the first. |
| `Prediction.SearchCandidates` | src/dispatch/plugins/kandbox_planner/agent/kandbox_heuristic_realtime_agent.py:526-542 | The search covers exactly the shortest prefix of candidates with n results, or all of them. |
| `Prediction.RankingIsSound` | src/dispatch/plugins/kandbox_planner/agent/kandbox_heuristic_realtime_agent.py:543 | The ranking loses and adds nothing, descends by score, and keeps the order of equal scores. |
| `Prediction.SizeWhereItStops` | src/dispatch/plugins/kandbox_planner/agent/kandbox_heuristic_realtime_agent.py:526-529 | At the first prefix with n results there are at most 2n - 1; with n <= 0 nothing is searched. |
| `Prediction.ShortAnswerIsComplete` | src/dispatch/plugins/kandbox_planner/agent/kandbox_heuristic_realtime_agent.py:526-542 | If fewer than n results come back from candidates, every acceptable group of theirs is among them. |
| `Prediction.TheBoundIsReached` | src/dispatch/plugins/kandbox_planner/agent/kandbox_heuristic_realtime_agent.py:526-542 | For every n >= 1, any candidate that gives n - 1 results followed by any that gives n has the search end with exactly 2n - 1. |
| `Prediction.TheBoundIsReachedByGroups` | src/dispatch/plugins/kandbox_planner/agent/kandbox_heuristic_realtime_agent.py:526-542 | So does any pair of candidates with n - 1 and n groups that come to an action each. |
| `StableSort.SortIsSorted` | src/dispatch/plugins/kandbox_planner/agent/kandbox_heuristic_realtime_agent.py:543 | Sorting by key gives keys in order. |
| `StableSort.SortIsStable` | src/dispatch/database_util/service.py:357 | For each key, the elements of that key come out in the order they went in. |
| `StableSort.SortIsPermutation` | src/dispatch/plugins/kandbox_planner/agent/kandbox_heuristic_realtime_agent.py:543 | Nothing is lost or added. |
| `StableSort.StableOrderIsUnique` | src/dispatch/database_util/service.py:357 | Sortedness and the order within each key leave only one sequence: the specification of a stable sort is complete. |
| `StockRows.DeductTakes` | src/dispatch/job/views.py:196-203 | A deduction lowers the level by its quantity, never leaves a negative allocation, touches the current quantity exactly when the allocation does not suffice, and goes through exactly up to what there is. |
| `StockRows.DeductionsAdd` | src/dispatch/job/views.py:196-199 | Deducting p and then q equals deducting p + q if and only if p fits the allocation or q is not negative. |
| `StockRows.DeductingLineByLine` | src/dispatch/job/views.py:188-199 | Non-negative quantities deducted one by one, in any order, leave what their sum would. |
| `StockRows.DictIsLastLine` | src/dispatch/plugins/kandbox_planner/util/kandbox_util.py:24-29 | The item dictionary has each code once, with the quantity of that code's last line, and only codes that occur. |
| `StockRows.OneMoreLine` | src/dispatch/plugins/kandbox_planner/util/kandbox_util.py:13-29 | One more line: a code with a quantity adds it to the total and is the last quantity from then on, a bare code adds nothing and makes the last quantity zero, a malformed one refuses the list. |
| `StockRows.WellFormedHasDict` | src/dispatch/plugins/kandbox_planner/util/kandbox_util.py:13-29 | A list is refused if and only if one of its lines is malformed. |
| `StockRows.OverriddenLinesAreLost` | src/dispatch/plugins/kandbox_planner/util/kandbox_util.py:24-29 | A finish and a replenishment of the same list agree on a code if and only if its earlier, overridden lines add up to nothing. |
| `StockRows.FinishIsExact` | src/dispatch/job/views.py:188-214 | A finish goes through if and only if every item has a row with enough; then exactly those rows are deducted and no other changes. |
| `StockRows.FinishTakes` | src/dispatch/job/views.py:188-214 | After a finish every level is down by the item's quantity, and touched or non-negative rows are non-negative. |
| `StockRows.ReplenishMoves` | src/dispatch/job/service.py:305-320 | A replenishment, shortage branch included, adds the sum of all lines of an item to the allocation and takes it from the current quantity, keeps every level and changes no other row. |
| `StockRows.ReplenishSucceedsIff` | src/dispatch/job/service.py:305-320 | It goes through, whatever the quantities, if and only if every line can be read and every code in it has a row. |
| `StockRows.ReplenishKeepsSign` | src/dispatch/job/service.py:314-320 | A row stays non-negative if and only if no more is moved than it has, in either direction. |
| `StockRows.ReplenishDecidesNothing` | src/dispatch/job/service.py:314-319 | Moving p on a non-negative row leaves every later finish decision the same if and only if p was covered by the current quantity. |
| `StockRows.FinishAfterReplenish` | src/dispatch/job/views.py:188-203 | After a sufficient replenishment a finish succeeds exactly when it would have before. |
| `StockLedger.FromItemListToDict` | src/dispatch/plugins/kandbox_planner/util/kandbox_util.py:24-29 | The parsing loop computes the dictionary, or stops at a malformed line. |
| `StockLedger.DeductItems` | src/dispatch/job/views.py:188-213 | The deduction loop on the session's rows computes the finish, or stops at a missing or short row. |
| `StockLedger.MoveItems` | src/dispatch/job/service.py:305-320 | The replenishment loop computes the moves, going on after a shortage. |
| `StockLedger.StockServer.CreateJob` | src/dispatch/job/service.py:301-331 | A creation with its replenishment is one commit: all of it or nothing; a known code changes nothing; a failure behind the commit loses the answer only. |
| `StockLedger.StockServer.UpdateJob` | src/dispatch/job/views.py:253-319 | Either update endpoint: refusals change nothing, a finish commits the deduction and then the job, and records one deduction; a failure behind both commits loses the answer only. |
| `StockLedger.CreateDoes` | src/dispatch/job/service.py:301-331 | A creation whose code is new, that does not fail before the commit and whose replenishment goes through adds the job as given and moves what its lines say between the two quantities of those rows; any other changes nothing. |
| `StockLedger.UpdateDoes` | src/dispatch/job/views.py:253-319 | An update of an unfinished job sets the status and the lines it brings and keeps the others; it deducts the stored items just when it finishes the job; one that may not finish, or lacks stock, changes nothing. |
| `StockLedger.FinishDeducts` | src/dispatch/job/views.py:177-214 | A finish takes the last quantity of each stored item from that item's row of the default depot and organisation, and touches no other row. |
| `StockLedger.RunConserves` | src/dispatch/job/views.py:170-218 | Over any run of creations, replenishments and updates, failures included, each row's level falls by exactly what the run's deductions took. |
| `StockLedger.StepConserves` | src/dispatch/job/service.py:301-331 | The same for one request. |
| `StockLedger.EachFinishIsDeductedOnce` | src/dispatch/job/views.py:269-317 | If no update fails between its two commits, the deductions are for distinct jobs, exactly those that became finished through an update; finished jobs stay finished. |
| `StockLedger.StepFinishes` | src/dispatch/job/views.py:170-171 | A finished job is never changed, and a deduction comes with the job becoming finished. |
| `StockLedger.StockIsConserved` | src/dispatch/job/views.py:170-218 | Conservation over whole runs without a failure between two commits: a row's final level is its initial level minus the sum, over the jobs that updates finished, of what each asked for, once each. |
| `StockLedger.StepTakesWhatIsAsked` | src/dispatch/job/views.py:182-214 | A request takes exactly what the job it finishes asked for, by the last line of each code, and nothing if it finishes none. |
| `StockLedger.FinishesStay` | src/dispatch/job/views.py:269-271 | A job finished in the run was not finished before, and still stores the lines its finishing update left. |
| `StockLedger.FinishesAreDeductions` | src/dispatch/job/views.py:269-317 | The jobs finished by updates are exactly those the run's deductions are for. |
| `StockLedger.DeductsWhatIsStillStoredIff` | src/dispatch/job/views.py:273-283 | A finishing update that brings new lines deducts the old ones: what the job stores afterwards reads as what was deducted if and only if old and new lines read the same. |
| `StockLedger.FinishSucceedsIff` | src/dispatch/job/views.py:177-214 | A finish request succeeds if and only if the stock suffices for the stored items; otherwise no row and no job changes. |
| `StockLedger.SufficesIff` | src/dispatch/job/views.py:182-203 | The deduction goes through if and only if the list is well formed and each code's last quantity is available in the default depot. |
| `StockLedger.FailedFinishIsTakenAgain` | src/dispatch/job/views.py:214-218 | Stock is taken without finishing the job if and only if the update fails after the first commit with sufficient stock; a retry that succeeds takes the same items a second time. After a failure behind the second commit the retry changes nothing. |
| `StockLedger.SignIsLostIff` | src/dispatch/job/service.py:314-319 | From non-negative rows, a request leaves a negative one if and only if it is a replenishment that moves more than some row has. |
| `FilterSpec.CreateFilterSpec` | src/dispatch/database_util/service.py:336-375 | The compiler: it fails if and only if some triple cannot be read, and what it builds accepts a row exactly when, for every model mentioned, the row meets all of that model's filters if one is a range filter and at least one otherwise. |
| `FilterSpec.ReadFilters` | src/dispatch/database_util/service.py:338-353 | The filters of the triples as far as the shortest list reaches, or the first triple's error. |
| `FilterSpec.ForceAnd` | src/dispatch/database_util/service.py:361-364 | The flag says whether an operator of the group contains a comparison sign. |
| `FilterSpec.SpecMeansWanted` | src/dispatch/database_util/service.py:355-372 | The nested specification accepts exactly the rows that were asked for, for every set of filters and every row. |
| `FilterSpec.OneGroupPerModel` | src/dispatch/database_util/service.py:357-360 | Each model yields one group holding its filters in the order given, models ascend, and the groups partition the input. |
| `FilterSpec.SortedAreGrouped` | src/dispatch/database_util/service.py:358 | Runs of equal neighbours in sorted data are the per-model groups, models ascending. |
| `FilterSpec.UngroupUndoesGroupBy` | src/dispatch/database_util/service.py:358 | The runs one after the other are the data. |
| `FilterSpec.BuildGroups` | src/dispatch/database_util/service.py:358-369 | The loop turns every run into its group, in order. |
| `FilterSpec.OrderDoesNotMatter` | src/dispatch/database_util/service.py:336-375 | Reordering or repeating triples changes neither success nor meaning. |
| `FilterSpec.SplitIsExact` | src/dispatch/database_util/service.py:343 | The parts of a field put back together with dots are the field, and no part holds a dot. |
| `FilterSpec.FilterOfField` | src/dispatch/database_util/service.py:341-353 | A plain field is filtered on the model asked for; one behind a single dot on the model the table before the dot names, or an error if there is none; two dots are an error; operator and value stay. |
| `FilterSpec.FiltersInOrder` | src/dispatch/database_util/service.py:341-353 | The filters come triple by triple in order; where reading fails, it is with the error of the first triple that has one. |
| `FilterSpec.OkWhenAllAre` | src/dispatch/database_util/service.py:341-353 | Reading succeeds if and only if every triple can be read. |
| `FilterSpec.NamesAreOrdered` | src/dispatch/database_util/service.py:357 | Model names are totally ordered as texts. |
| `FilterSpec.TextIsLexicographic` | src/dispatch/database_util/service.py:357 | Text order: the first place where two texts differ decides, and a text comes before its continuations. |
| `RetryBackoff.RetryStore.DelaySetting` | src/dispatch/main.py:301-327 | An attempt is granted if and only if there is no live key or the last entry is due; a grant notes a later due time at most two hours ahead, and the key stays valid. |
| `RetryBackoff.AtMostFour` | src/dispatch/main.py:278-298 | A key never holds more than four entries: the waits exceed its lifetime. |
| `RetryBackoff.EntriesIncrease` | src/dispatch/main.py:311-323 | Entries increase strictly in both time and score. |
| `RetryBackoff.AttemptAppends` | src/dispatch/main.py:322-323 | A granted attempt's member is new and its score the highest, so the set grows at its end. |
| `RetryBackoff.PollKeepsValid` | src/dispatch/main.py:308-325 | Every poll keeps the key valid; the last tier of 99990 minutes is never used. |
| `RetryBackoff.PollDoes` | src/dispatch/main.py:278-327 | What a poll does in full: without a live key it makes one for 7260 seconds with the next attempt due in ten minutes; before the last entry is due it changes nothing; after that it adds an entry due in half an hour, one hour or two hours when it is the second, third or fourth. |
| `RetryBackoff.AddingKeepsValid` | src/dispatch/main.py:320-323 | An attempt in a live key finds at most three entries there. |
| `RetryBackoff.RunsAreWellSpaced` | src/dispatch/main.py:301-327 | Any time-ordered run of polls is granted attempts each of which follows the last by its wait within a lifetime, or begins a new lifetime at least 7260 s after the previous one began. |
| `RetryBackoff.FourPerLifetime` | src/dispatch/main.py:312 | Of five consecutive attempts the last belongs to a later lifetime than the first. |
| `RetryBackoff.AttemptsAreBounded` | src/dispatch/main.py:278-327 | Over any run, W seconds hold at most 4 * (W / 7260 + 1) attempts, the division being exact. |
| `RetryBackoff.FourInALifetime` | src/dispatch/main.py:278-327 | Polled at the earliest times, a lifetime does grant its four attempts, within 6000 seconds. |
| `RetryBackoff.FiveWithinOneLifetime` | src/dispatch/main.py:278-327 | Rounding the division down would be wrong: six polls that give five attempts within 6001 seconds. |
| `TokenCodec.EscapingIsUndoneIff` | src/dispatch/common/utils/encryption.py:31-36 | Unescaping undoes escaping if and only if the text contains neither 1abc1 nor 1abc/. |
| `TokenCodec.EscapedStart` | src/dispatch/common/utils/encryption.py:31-36 | When an escaped text begins with the escape sequence. |
| `TokenCodec.ReplaceFirst` | src/dispatch/common/utils/encryption.py:31-36 | Replacing puts the new text for the first occurrence and goes on behind it. |
| `TokenCodec.SharedEscapedFormIff` | src/dispatch/common/utils/encryption.py:31-36 | A text shares its escaped form with another text if and only if it holds a slash or 1abc1. |
| `TokenCodec.AddTo16` | src/dispatch/common/utils/encryption.py:24-28 | Padding appends the fewest NULs that make the length a multiple of 16. |
| `TokenCodec.StripNulsIff` | src/dispatch/common/utils/encryption.py:58-59 | Removing NULs gives the text back if and only if it has none. |
| `TokenCodec.StripNulsOfPadding` | src/dispatch/common/utils/encryption.py:58-59 | The padding is removed whatever its length. |
| `TokenCodec.DecryptUndoesEncrypt` | src/dispatch/common/utils/encryption.py:39-61 | If the base64 text has neither sequence, decrypting the encrypted text gives it without its NULs: the text itself if and only if it had none. |
| `TokenCodec.EncryptedHasNoSlash` | src/dispatch/common/utils/encryption.py:39-48 | An encrypted text has no slash, and a base64 text without one is left as it is. |
| `TokenCodec.AsciiIsEncrypted` | src/dispatch/common/utils/encryption.py:39-48 | An ASCII text always fills whole blocks, so encryption does not fail. |
| `TravelCache.Direct` | src/dispatch/plugins/kandbox_planner/travel_time_plugin.py:93-113 | The direct router answers 0 or a time between the minimum and, if set, the maximum; it raises only for a speed of zero, two different places and no home. |
| `TravelCache.DirectIs` | src/dispatch/plugins/kandbox_planner/travel_time_plugin.py:93-113 | For a speed other than zero: no time between equal places or with a home; else the time that, at the speed in kilometres an hour, covers the distance, raised to the minimum or cut at the maximum. |
| `TravelCache.CacheDict.SetItem` | src/dispatch/plugins/kandbox_planner/util/cache_dict.py:13-19 | Storing makes the entry the newest and keeps the newest entries that fit. |
| `TravelCache.CacheDict.GetItem` | src/dispatch/plugins/kandbox_planner/util/cache_dict.py:21-25 | Reading makes the entry the newest; a missing key changes nothing. |
| `TravelCache.MultiLayerCacheTravelTime.GetTravelMinutes2Locations` | src/dispatch/plugins/kandbox_planner/travel_time_plugin.py:45-56 | One call counts one hit or one miss, leaves its key newest, stores nothing when the router raises, and on an agreeing cache answers what the direct router answers. |
| `TravelCache.CallAgrees` | src/dispatch/plugins/kandbox_planner/travel_time_plugin.py:45-56 | A call without a home, or that takes no time, keeps the cache in agreement with the direct router. |
| `TravelCache.SameTimeIff` | src/dispatch/plugins/kandbox_planner/travel_time_plugin.py:93-113 | Two trips between the same places take the same time if and only if both or neither involve a home, or no time passes without one. |
| `TravelCache.AnswersAreDirectIff` | src/dispatch/plugins/kandbox_planner/travel_time_plugin.py:45-56 | Over a run of any capacity and speed every answer is the direct router's, exceptions included, if and only if, among the trips that get an answer, each that finds its key still cached is like the trip that used the key before it: the key leaves out the location type. |
| `TravelCache.AnswersAreDirectWhenAllFit` | src/dispatch/plugins/kandbox_planner/travel_time_plugin.py:45-56 | If the answered keys of the run fit the cache, every answer is direct if and only if all answered trips of a key agree on whether a home is involved, or take no time; for any capacity that is sufficient. |
| `TravelCache.CachedAnswer` | src/dispatch/plugins/kandbox_planner/travel_time_plugin.py:45-56 | Among answered trips, one whose key is still cached gets the answer of the key's last use, any other the direct one. |
| `TravelCache.RaisingTripsLeaveNoTrace` | src/dispatch/plugins/kandbox_planner/travel_time_plugin.py:51-54 | Trips that raise may be left out of a run: the cache is the same, and all others are still answered. |
| `TravelCache.SpeedAnswers` | src/dispatch/plugins/kandbox_planner/travel_time_plugin.py:103-104 | With a speed other than zero every trip gets an answer. |
| `TravelCache.CacheIsMostRecent` | src/dispatch/plugins/kandbox_planner/util/cache_dict.py:13-25 | After any run the cache holds the keys answered last, in order of last use, as many as fit. |
| `TravelCache.HitIff` | src/dispatch/plugins/kandbox_planner/util/cache_dict.py:13-25 | A call hits if and only if fewer distinct keys than the cache holds were answered since its key was last answered. |
| `TravelCache.FirstUseMisses` | src/dispatch/plugins/kandbox_planner/travel_time_plugin.py:47-54 | A key never answered before is a miss. |

## Left out

- Kafka, Redis, SQLAlchemy, HTTP, Zulip and authentication themselves: the model has the log, lock, key-value store and transaction they provide.
- Appointment, absence, worker, planning-window and recommendation messages, and what replaying with mutation does to slots: they live in the environment's action machinery.
- The removal of a job by `order_state` in `_update_job_metadata`: it pops from a list by an index nothing renumbers.
- Metadata other than the four planning fields. `UpdateJob` models an update's effect on those four only. An entry is taken to encode alike each time it is read; where the horizon ends is not.
- Batching: worker, appointment and absence entries go through the same loops; the theorems use job entries as payloads.
- ReplayProtocol: log offsets are contiguous. What a failing replay has mutated before it raised is not part of the state.
- Refresh_Job entries are taken to carry all four fields; one that lacks a field after its job code would raise.
- SlotCache: `set_slot` and `delete_slots_from_worker` change Redis before or without a message and are not steps; the interval tree and the overtime bookkeeping beside the dictionary are left out. Looking at Redis for one notice is one step. Every slot code names a known worker: removing one of an unknown worker would raise behind its removal and leave the rest of the notice unhandled.
- Unplanning: the dispatcher is a function of the slots' job lists; that it may keep state between calls is not modelled.
- Prediction: the groups a candidate gets (`intersect_geo_time_slots` and the filters before it), the dispatcher, the rules and the travel part of the score are functions given to the search; they may depend on the group's slots and times. The early exits of the search count as having no groups.
- StockLedger: jobs are found by code, and updates that rename a job are left out. `update_planning_info` and direct inventory editing change status or quantity without the deduction rule and are excluded steps, and so is deleting a job, which frees its code for a second creation and finish. Requests run one after the other; the default depot stays the same during a run.
- Quantities and travel times are real numbers; rounding, NaN and infinities of floating point are left out.
- RetryBackoff: the two clock readings of one call are taken to be the same whole second; daylight saving and the bare except around Redis errors are left out.
- TokenCodec: the cipher, base64 and UTF-8 are any functions that undo themselves; what decrypting does with a base64 text that has one of the two sequences is left to them.
- TravelCache: routers with different speeds share one cache without their settings in the key, so agreement is stated for one configuration. The distance is any function of the coordinates.
- `calculate_cost`, job flows, messaging, natural language, the learning agents, migrations, setup and the command line: wrappers or unused.
