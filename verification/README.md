# A verified model of the MapReduce word counter

The repository is a fault-tolerant MapReduce framework whose job is to count words. One of
several masters is elected leader through ZooKeeper. The leader cuts the blobs of a storage
container into shards, hands map tasks to workers over asynchronous calls that may fail or
time out, then hands out reduce tasks, and meanwhile pushes its progress to a follower that
takes over if it dies. Workers repair the words at the edges of each piece, count words with
a Python script, and exchange files through intermediate blobs.

This project models that code in Dafny and proves that the parts fit together. The theorem
at the top is `EndToEnd.FinishedRunCountsWords`: in every run that finishes, with any
schedule, any failed, timed-out or repeated calls, workers that carry out old tasks late or
in parts, and any number of leader changes from any checkpoint ever pushed, the output
container holds exactly the files `out_0` .. `out_{R-1}`, each the plain word count of the
input for the words that hash to its reducer. `OutputText.OutputIsReport` says what that is
byte for byte, from the input alone. `ConcurrentLeaders.AnyFinishedLeaderCountsWords` extends it to any number of leaders at work at the same time. `EndToEnd.EveryWordInOneOutput`
says the same for a single word, `EndToEnd.OutputIsDeterministic` that no two finished runs
differ, and `Progress.CanFinishExactly` when a leader can finish at all. For several leaders
`ConcurrentProgress.AnyLeaderCanFinish` says that each one present with work left can, and
`LeaderBound.LeaderStepsAreBounded` bounds what any schedule can make a leader do.

## How the files fit together

| file | models |
|---|---|
| `Sequences`, `Arithmetic`, `Decimal`, `Lexicographic` | sequences, decimal and zero-padded numbers, string order and sorting |
| `WordText`, `WordRuns` | what a word is, collected from left to right, and said as maximal runs of letters and digits |
| `WordBoundary` | `w7/src/worker/worker.h`: download and in-place repair of a piece |
| `Dictionary`, `TextFile`, `Scripts` | Python dictionaries and text files, `map.py`, `reduce.py` |
| `Sharding`, `FloatArithmetic` | `w7/src/master/dbconn.h` and `create_sharding_data`, its `float` arithmetic included |
| `Intermediate`, `WorkerSteps` | `w7/src/worker/workerimpl.cc`, the `do_work` methods, blob names, the hash partition |
| `MapDispatch`, `MapDispatcher` | `dispatchMapTasks` and `AsyncCompleteMapRpc`: state machine, and the code on its fields |
| `ReduceDispatch`, `ReduceDispatcher` | `dispatchReduceTasks` and `AsyncCompleteReduceRpc`, likewise |
| `Checkpoint` | `serialize_data`, `deserialize_data`, `processReplicatedData`, the wire format |
| `WordCount` | what a job should compute, from the words of the input to the output of a reducer |
| `Cluster`, `EndToEnd`, `Progress` | the whole job as one state machine, its invariant, and the main theorems |
| `OutputText` | the output files in terms of the input alone |
| `LeaderBound` | how many steps a leader can take |
| `ConcurrentLeaders`, `ConcurrentProgress` | several leaders that share workers, containers and followers |
| `LeaderElection`, `LeaderSafety`, `LeaderElector`, `LeaderProgress` | `elect_leader` of `w7` and the polling loop of `w6` on an atomic store |
| `Clients` | the worker list, `update_workers`, `findMinReqHealthyClient` |
| `CallObjects`, `Query` | the call objects of the worker's event loop, the parser of the job request |

Two threads that share data are modelled as a state machine whose steps interleave freely;
"push, erase, `nrpcs--`", "invoke, `nrpcs++`, pop" and each completion are one step, except
that a success is reported and logged in two steps, as the code does under two locks.
Finding the response list empty and testing for the exit are one step too; a completion in
between changes nothing the test reads. The classes `MapDispatcher.Dispatcher` and
`ReduceDispatcher.Dispatcher` hold the source's loops on the source's fields; between any two
of their steps at which calls can be in flight the other thread may take any number of steps.
A ghost history shows that every execution is a run of the machine, so what is proved about
runs holds of the code. `LeaderElector.Ensemble` does the same for elections.

## What the code promises only under conditions

Each condition below is proved to be the right one, or has a lemma with an input that breaks it.

- Word repair looks 16 bytes ahead. It keeps the words for all cuts if and only if no word
  character follows 16 undelimited bytes from the second byte on (`WordBoundary.RepairIsExact`).
  In particular it does when every 17 bytes hold a ' ', a '.' or a ','
  (`WordBoundary.ShortRunsSuffice`).
  A piece whose repair throws contributes nothing, and that is right: its predecessor owns
  those bytes.
- Map dispatch leaves its loop when the number of results equals `m_nmappers`, not when all
  shards are done. With fewer shards it never leaves, with more it leaves too early or never
  (`MapDispatch.WrongCount`, `MapDispatch.OvershootNeverEnds`). For T bytes, n mappers and a
  computed shard size s the shard count is n exactly when (n - 1) * s < T <= n * s; or, when the
  last blob is empty and T is a multiple of s, when T = (n - 1) * s, since that blob makes a
  shard of its own; or, without any bytes, when there are n blobs (`EndToEnd.SupportedExactly`).
  The size is computed in `float`: up to 2^24 mappers and below 2^24 bytes it is s = ceil(T / n)
  however the machine rounds, and T <= n * s holds by itself (`Sharding.FloatShardSzExact`,
  `EndToEnd.SupportedBelow2To24`); from there on it may be another number. With s = ceil(T / n)
  more than (n - 1)^2 bytes suffice if the last blob is not empty (`Sharding.EnoughBytes`).
- A new leader whose checkpoint already holds every map result gets an empty queue and spins
  for ever (`MapDispatch.NothingMissingNeverEnds`, `Progress.CanFinishExactly`), and for every
  supported job some run leads to such a leader (`Progress.StuckIsReachable`).
- Offsets cross the wire as int32 and survive exactly below 2^31 and in the last 2^31
  values of the 64-bit range (`Checkpoint.OffsetSurvives`).
- The log of completed tasks is never cleared. A follower rebuilds the results and the blob
  list of the present job if and only if the log was empty when the job began
  (`Checkpoint.StaleLogExactly`, `Checkpoint.FollowerRebuildsExactly`);
  `Checkpoint.StaleLogMixesJobs` is an input. The model runs one job from an empty log.
- The constructor of `ReduceResult` takes the blob name before the container, its callers
  pass them the other way round, and workers leave the blob name empty. The map of reduce
  outputs therefore records empty strings where the container name is meant
  (`ReduceDispatch.ExitIsComplete`). Nothing acts on those values.
- A comment at `w7/src/worker/worker.h:177` names the output blob after the worker's address;
  the code names it after the reducer, and the model follows the code.

## Assumptions

Input is printable ASCII and newlines, with distinct blob names and blobs below 2^31 bytes.
`std::hash` is an arbitrary but fixed function. Files and blobs are written and read whole;
a write of a blob is atomic. ZooKeeper is an atomic store, every call on it is one step, and the end of a session
removes all nodes of that session at once. Worker addresses are arbitrary strings; which
healthy worker gets a task is left open in the dispatch machines. Single-precision arithmetic
is any monotone rounding of the exact real result that fixes the integers up to 2^24 and has
a relative error of at most 2^-24.

## Model

| member | source | states |
|---|---|---|
| EndToEnd.FinishedRunCountsWords | w7/src/master/masterimpl.cc:815-948 | every finishing run leaves exactly one output file a reducer, each the word count of the input restricted to that reducer's words |
| OutputText.OutputIsReport | w7/src/worker/workerimpl.cc:249-263 | each file of a finished run lists, one a line in quotes and in alphabetical order, exactly the words that stand somewhere in the input and whose quoted text hashes to the reducer, each with the number of places where it stands as a whole run of letters and digits in any case |
| OutputText.OrdinaryJobIsCounted | w7/src/master/masterimpl.cc:745-948 | the same for any printable input with a delimiter in every 17 bytes, more than (n - 1)^2 and fewer than 2^24 bytes and a last blob that is not empty, sharded by the code |
| OutputText.ReducedInOrder | w7/src/python/reduce.py:6-18 | reducing the lines that workers write gives a dictionary in alphabetical order |
| EndToEnd.EveryWordInOneOutput | w7/src/worker/workerimpl.cc:249-263 | a finished run lists a word with a count in a reducer's file if and only if the hash of the quoted word, modulo the number of reducers, is that reducer and the count is its positive number of occurrences in all blobs |
| EndToEnd.OutputIsDeterministic | w7/src/master/masterimpl.cc:828-933 | any two finished runs of a job, whatever failed in them, have the same outputs byte for byte |
| EndToEnd.MappingIsExactlyOnce | w7/src/master/masterimpl.cc:890-914 | when map dispatch is done there is one accepted result a shard, recovered ones included; the list names one blob for each shard, piece and reducer and no others, and the reducers' lists partition it |
| EndToEnd.Containers | w7/src/worker/worker.h:162-180 | once a result is accepted the recorded intermediate container is the job's name with int; in a finished run each response holds the job's name with out, but as blob name |
| EndToEnd.ReduceCallsFillUp | w7/src/master/masterimpl.cc:1086-1092 | the leader stops handing out reduce tasks only when none is left or exactly one call more than there are clients is out |
| EndToEnd.WordIsListedOnce | w7/src/worker/workerimpl.cc:249-263 | a word that occurs is listed exactly once in the whole output of a finished run, with its count, by the reducer its quoted text hashes to |
| ConcurrentLeaders.AnyFinishedLeaderCountsWords | w7/src/master/masterimpl.cc:1238-1325 | with any number of leaders at work, the output is complete and right as soon as one of them has finished |
| ConcurrentLeaders.NoOutputIsEverWrong | w7/src/master/masterimpl.cc:828-1172 | at every moment, while leaders compete, each output file that exists is the right one |
| ConcurrentLeaders.EachLeaderMapsExactlyOnce | w7/src/master/masterimpl.cc:890-914 | each leader that is done mapping has its own complete set of backed results, one a shard |
| ConcurrentLeaders.OthersUndisturbed | w7/src/master/masterimpl.cc:828-1172 | what one leader shares leaves the invariant of every other leader intact |
| ConcurrentLeaders.AnybodyMayTakeCharge | w7/src/master/masterimpl.cc:550-578 | in every run anybody may take charge from any checkpoint ever pushed; the newcomer knows the job, starts mapping from the checkpoint's results, and disturbs nobody |
| ConcurrentLeaders.AnyLeaderMayStop | w7/src/master/masterimpl.cc:1238-1325 | any leader may stop at any time without any effect on the others, the workers or the containers |
| ConcurrentLeaders.ActIsOwnStep | w7/src/master/masterimpl.cc:828-1172 | what a leader does among others is a step of the single-leader machine on what it sees; the others keep what they know |
| ConcurrentProgress.EventKeepsCalls | w7/src/master/masterimpl.cc:411-443 | tasks handed out, calls made and checkpoints pushed stay known whatever happens |
| ConcurrentProgress.AnyLeaderCanFinish | w7/src/master/masterimpl.cc:828-1172 | in every run with any number of leaders, each leader present that has work left can finish by steps of its own alone, whatever the others have done |
| ConcurrentProgress.FirstLeaderFinishes | w7/src/master/masterimpl.cc:815-948 | every supported job with a shard can be finished by its first leader |
| EndToEnd.OneBlobEach | w7/src/worker/mrservice.h:258-276 | a complete set of results names exactly one blob, of a single worker, for each shard, piece and reducer |
| EndToEnd.CheckpointIsPrefix | w7/src/master/masterimpl.cc:411-443 | what a follower was sent is a prefix of the leader's completion log at any later moment of its leadership |
| EndToEnd.NewLeaderRunsWhatIsMissing | w7/src/master/masterimpl.cc:550-578 | a new leader knows the job unchanged, starts from exactly the checkpointed results, and queues each other shard exactly once |
| EndToEnd.SupportedExactly | w7/src/master/masterimpl.cc:745-785 | for inputs the other parts can handle, whatever the rounding, the shard count is the one dispatch waits for if and only if the stated inequality on bytes, mappers and computed shard size holds, empty blobs at the end and inputs without bytes included |
| EndToEnd.SupportedBelow2To24 | w7/src/master/dbconn.h:39-64 | below 2^24 bytes the same condition holds with the exact ceiling of bytes over mappers, and that many shards hold all bytes |
| Progress.CanFinishExactly | w7/src/master/masterimpl.cc:828-933 | from a reachable state the present leader can finish the job if and only if its checkpoint left a shard to map |
| Progress.LeaderCanFinish | w7/src/master/masterimpl.cc:843-920 | no reachable state with work left is a dead end: some continuation without further failures finishes the job |
| Progress.StuckStays | w7/src/master/masterimpl.cc:876 | a leader that took over all map results stays in the wait loop for ever |
| Progress.StuckIsReachable | w7/src/master/masterimpl.cc:411-443 | for every supported job some run ends with a leader that took over all results and cannot finish |
| Progress.NextEvent | w7/src/master/masterimpl.cc:1077-1172 | in every unfinished state with work left some step is possible that brings the end strictly closer |
| LeaderBound.LeaderStepsAreBounded | w7/src/master/masterimpl.cc:828-1172 | from any reachable state, in any sequence of events under one leader, the steps of that leader's threads are at most a bound that depends on its state and the number of its calls that fail |
| LeaderBound.FirstLeaderIsBounded | w7/src/master/masterimpl.cc:843-1153 | for the first leader the bound is a formula in shards, reducers and failed calls |
| LeaderBound.PotentialDrops | w7/src/master/masterimpl.cc:58-180 | each step of the leader uses up potential, no step of a worker or follower adds any, and only a failed call is paid for by the failures still allowed |
| Cluster.InvStep | w7/src/master/masterimpl.cc:828-1172 | every step of leader, workers, replication or takeover keeps the invariant of the whole job |
| Cluster.NothingIsRuledOut | w7/src/master/masterimpl.cc:58-180 | in every reachable state every piece of every task ever given may be uploaded, every reduce call carried out, every call fail or time out, and every pushed checkpoint be taken over |
| Cluster.UploadKeepsStore | w7/src/worker/worker.h:160-175 | whoever uploads a blob and whenever, every intermediate blob of the job keeps its one right content |
| Cluster.MappedIsComplete | w7/src/master/masterimpl.cc:912-915 | after the exit test the accepted results are genuine, backed by blobs, and exactly one a shard |
| Cluster.PushedIsGood | w7/src/master/masterimpl.cc:445-497 | a pushed checkpoint holds the whole log of genuine, duplicate-free results whose blobs exist, the outputs, and the job unchanged |
| Cluster.TakesOver | w7/src/master/masterimpl.cc:499-548 | a leader rebuilt from a good checkpoint knows the same job and may start map dispatch from the log |
| Cluster.StartsFromCheckpoint | w7/src/master/masterimpl.cc:559-571 | the fields deserialization leaves are the ones dispatch starts from, the queue holds the missing shards, the new log is empty |
| Cluster.GatherResults | w7/src/worker/mrservice.h:319-334 | the file a reducer collects is exactly its share of each shard, in the order of the results |
| Cluster.CallWritesExpected | w7/src/worker/workerimpl.cc:112-130 | every reduce call ever made, whenever it is carried out, writes the same output |
| MapDispatch.TasksAreConserved | w7/src/master/masterimpl.cc:843-910 | in every reachable state each shard is in exactly one of queue, flight, responses and results, and `nrpcs` counts flight plus responses and is at most 11; the main thread waits only with an empty queue or with 11 calls counted |
| MapDispatch.NeverWaitsOnNothing | w7/src/master/masterimpl.cc:876 | whenever the main thread waits for a response, a call is in flight and the completion thread can take its event |
| MapDispatch.ExitIsComplete | w7/src/master/masterimpl.cc:912-920 | on exit every shard has its own genuine result, nothing is left over, dispatches are initial queue length plus failures |
| MapDispatch.WrongCount | w7/src/master/masterimpl.cc:912-915 | if the shard count differs from the number of mappers, leaving the loop means shards are missing, and only happens with too many shards |
| MapDispatch.OvershootNeverEnds | w7/src/master/masterimpl.cc:912-915 | once more results than mappers have been accepted the loop is never left |
| MapDispatch.NothingMissingNeverEnds | w7/src/master/masterimpl.cc:843-876 | with all results recovered the loop is never left |
| MapDispatch.CanCompleteExactly | w7/src/master/masterimpl.cc:843-920 | some run leaves the loop with every shard mapped if and only if shard and mapper counts agree and a shard was missing |
| MapDispatch.RankDecreases | w7/src/master/masterimpl.cc:828-933 | every step of either thread lowers a rank that only failures can pay for |
| MapDispatch.RunsAreFinite | w7/src/master/masterimpl.cc:828-933 | the length of any run is bounded by the queue length and the number of failed calls |
| MapDispatch.EveryRunCanFinish | w7/src/master/masterimpl.cc:843-920 | every run can be extended to one that leaves the loop, without further failures |
| MapDispatch.InvStep | w7/src/master/masterimpl.cc:58-125 | dispatch, completion, logging and processing each keep conservation, counters, results and log |
| MapDispatch.LogIsDuplicateFree | w7/src/master/masterimpl.cc:90-96 | at any moment the log holds genuine results of this job, at most one a shard |
| MapDispatch.LogOnlyGrows | w7/src/master/masterimpl.cc:90-96 | the log at one moment is a prefix of the log at any later one |
| MapDispatch.NoDuplicate | w7/src/master/masterimpl.cc:892-903 | a response about to be processed is never for a shard that already has a result |
| MapDispatcher.Dispatcher.DispatchMapTasks | w7/src/master/masterimpl.cc:828-933 | with completions between any two steps, the loop ends for every schedule with a bounded number of failures, with a genuine result for every shard, the blob list that goes with the results, and one dispatch for each queued shard and failure |
| MapDispatcher.Dispatcher.WaitForResponse | w7/src/master/masterimpl.cc:876 | the busy wait ends with a response, whatever the other thread does |
| MapDispatcher.Dispatcher.ProcessResponse | w7/src/master/masterimpl.cc:878-910 | one turn of the response loop is the machine's processing step: re-queue, accept or drop, erase, count down |
| MapDispatcher.Dispatcher.AsyncCompleteMapRpc | w7/src/master/masterimpl.cc:58-125 | handling one completion event is the machine's completion step for that call and status |
| ReduceDispatch.TasksAreConserved | w7/src/master/masterimpl.cc:1077-1172 | each reduce task is in exactly one of queue, flight and responses, `nrpcs` minus the responses is the number in flight, at most clients + 1 |
| ReduceDispatch.ExitIsComplete | w7/src/master/masterimpl.cc:1148-1172 | on exit the output map has exactly the keys 0..R-1 with one success each, after R plus failures calls; its values are empty strings, the containers stand in the responses as blob names |
| ReduceDispatch.NeverWaitsOnNothing | w7/src/master/masterimpl.cc:1122-1124 | while a round is incomplete a call is in flight |
| ReduceDispatch.RankDecreases | w7/src/master/masterimpl.cc:1086-1153 | every step of either thread brings the end of the loop closer |
| ReduceDispatch.RunsAreFinite | w7/src/master/masterimpl.cc:1086-1153 | the length of any run is bounded by reducers and failed calls |
| ReduceDispatch.InvStep | w7/src/master/masterimpl.cc:127-180 | every step keeps conservation, counters and the scan of the response list |
| ReduceDispatcher.Dispatcher.DispatchReduceTasks | w7/src/master/masterimpl.cc:1077-1172 | the loop ends for every schedule with a bounded number of failures, with one success for each reducer |
| ReduceDispatcher.Dispatcher.InspectResponse | w7/src/master/masterimpl.cc:1125-1143 | one turn of the scan re-queues and erases a failure or moves past a success |
| Sharding.CreateShardingData | w7/src/master/masterimpl.cc:745-776 | shards are numbered from zero, their pieces tile every blob in order, all but the last have exactly the computed shard size, and their number is exact, with and without bytes |
| Sharding.MakeShards | w7/src/master/dbconn.h:66-104 | the pieces tile all blobs, and a piece is marked complete exactly when it fills its shard to the last byte |
| Sharding.ShardBlob | w7/src/master/dbconn.h:77-100 | one blob is tiled from zero to its size and the carried remainder stays the bytes missing from the open shard |
| Sharding.JoinPartialShards | w7/src/master/masterimpl.cc:754-776 | grouping keeps all pieces in order and makes full shards, the last one holding what is left open |
| Sharding.CalcShardSz | w7/src/master/dbconn.h:39-64 | the loop computes the rounded sum, quotient and ceiling for any rounding; the size is the exact ceiling of bytes over mappers below 2^24 bytes and up to 2^24 mappers, and zero exactly when there are no bytes |
| Sharding.FloatShardSzExact | w7/src/master/dbconn.h:41-61 | below 2^24 bytes and up to 2^24 mappers the rounded sum and quotient have the exact ceiling, for every rounding |
| Sharding.FloatShardSzZero | w7/src/master/dbconn.h:41-61 | at any size, rounding makes no shard size zero or negative unless there are no bytes |
| FloatArithmetic.CeilQuotientExact | w7/src/master/dbconn.h:61 | the ceiling of the rounded quotient of fewer than 2^24 bytes is the integer ceiling |
| Sharding.CountForMappers | w7/src/master/dbconn.h:39-64 | with the exact ceiling as shard size the count is at most n, and exactly n if and only if (n - 1) * ceil(T/n) < T |
| Sharding.CeilDivIsExactly | w7/src/master/dbconn.h:66-104 | shards of any size s are n in number if and only if (n - 1) * s < T <= n * s |
| Sharding.EnoughBytes | w7/src/master/dbconn.h:60-62 | with the exact ceiling as shard size, more than (n - 1)^2 bytes give every mapper a shard |
| Sharding.CountWithEmptyTail | w7/src/master/dbconn.h:95-100 | with an empty blob behind full shards of any size s the count is n if and only if n - 1 shards hold all bytes |
| Sharding.TrailingEmptyBlob | w7/src/master/dbconn.h:95-100 | an empty blob after a full shard gives three shards for two mappers |
| Sharding.TooFewBytes | w7/src/master/dbconn.h:60-62 | four bytes give two shards for three mappers |
| WordBoundary.FixWordBoundary | w7/src/worker/worker.h:196-232 | the in-place repair throws or leaves exactly the specified bytes, blanked front and cut tail |
| WordBoundary.BlankFront | w7/src/worker/worker.h:198-209 | the front loop fails exactly on short input without delimiter, otherwise blanks up to the first delimiter, at most 16 bytes |
| WordBoundary.CutBack | w7/src/worker/worker.h:210-226 | the tail is erased from the first delimiter at or after the end of the piece |
| WordBoundary.WritePartialDataToLocalFile | w7/src/worker/worker.h:42-86 | a piece's file is the repaired download, or missing when the piece begins at the end of the blob or the repair fails |
| WordBoundary.PieceContents | w7/src/worker/worker.h:196-232 | a repaired piece consists of blanks and exactly the bytes between its own border and the next; if its repair throws, nothing is left for it to own |
| WordBoundary.BorderMonotone | w7/src/worker/worker.h:198-226 | later cuts have later borders |
| WordBoundary.RepairKeepsWords | w7/src/worker/worker.h:196-232 | pieces repaired independently have the words of the blob, in order, for any cuts |
| WordBoundary.RepairIsExact | w7/src/worker/worker.h:42-86 | all cuts keep the words of a blob if and only if no word character follows 16 undelimited bytes |
| WordBoundary.ShortRunsSuffice | w7/src/worker/worker.h:198-226 | if every 17 bytes of a blob hold a blank, a full stop or a comma, repaired pieces have the words of the blob, in order, for any cuts |
| WordBoundary.LongRunLosesWord | w7/src/worker/worker.h:198-209 | a long run has cuts after which the words differ |
| WordBoundary.TwentyLetters | w7/src/worker/worker.h:198-209 | a word of 20 letters cut after the first and second letter is miscounted |
| WordRuns.WordsAreRuns | w7/src/python/map.py:8-18 | the words of a printable text are its maximal runs of letters and digits, all of them, in order and in lower case |
| WordRuns.CountIsOccurrences | w7/src/python/map.py:15-22 | how often a word is counted is the number of places where it stands |
| WordRuns.CaseDoesNotMatter | w7/src/python/map.py:10 | a text and the same text in lower case have the same words and the same dictionary |
| WordRuns.PunctuationIs | w7/src/python/map.py:13 | punctuation is what is printable and neither letter, digit nor blank, so word characters of a printable text are the letters and digits |
| Scripts.MapFunc | w7/src/python/map.py:3-26 | the dictionary counts exactly the words of the file, in order of first occurrence |
| Scripts.LineWords | w7/src/python/map.py:9-18 | stripping, lowering, translating and splitting a line yields its maximal runs of word characters |
| Scripts.ReduceFunc | w7/src/python/reduce.py:2-18 | the result adds up the sorted lines, or fails on a malformed line |
| Scripts.ReduceSums | w7/src/python/reduce.py:2-18 | on well-formed lines every word has one entry, the sum over its lines |
| Scripts.ReduceOrderIndependent | w7/src/python/reduce.py:6-8 | the result depends only on which lines there are and how often |
| Lexicographic.LessIs | w7/src/python/reduce.py:6 | a string comes before another if and only if it has the smaller character where they first differ, or ends there |
| TextFile.ParseFormat | w7/src/python/reduce.py:9-15 | reading a line that a worker wrote gives back the word and its count |
| TextFile.ParseAnyKey | w7/src/python/reduce.py:9-15 | any key without colon is read, less its punctuation, and the number may have blanks around it |
| TextFile.ReadableExactly | w7/src/python/reduce.py:9-15 | a line is read if and only if it has exactly one colon and only digits behind it, blanks at either end aside |
| TextFile.DropPunctAt | w7/src/python/reduce.py:10 | of each key exactly the printable characters that are no letters, digits or blanks are deleted |
| Intermediate.BlobNameInjective | w7/src/worker/worker.h:165 | two blob names are equal only for the same worker, shard, piece and reducer, underscores in addresses or not |
| Intermediate.ReducerOfBlobName | w7/src/master/masterimpl.cc:1097-1109 | the number after the last underscore of a blob name is its reducer |
| Intermediate.SelectBlobs | w7/src/master/masterimpl.cc:1096-1109 | the loop selects exactly the blobs whose name ends in the reducer's number, in order |
| Intermediate.TaskBlobsForReducer | w7/src/master/masterimpl.cc:1096-1109 | of a task's blobs a reducer gets exactly one for each piece |
| Intermediate.BlobOrderIrrelevant | w7/src/worker/mrservice.h:319-334 | any permutation of a list of whole-line blobs gives a reducer the same output |
| Intermediate.ListsPartition | w7/src/master/masterimpl.cc:1096-1109 | if every name ends in the number of a reducer, the lists handed out name each blob as often as the whole list does |
| Intermediate.PartitionSum | w7/src/worker/workerimpl.cc:249-263 | a reducer's part keeps the words whose quoted text hashes to it with their counts and no others |
| Intermediate.PartitionMember | w7/src/worker/workerimpl.cc:254-256 | an entry is in a reducer's part if and only if the hash of the quoted word, modulo the number of reducers, is that reducer |
| Intermediate.NoSuchBlob | w7/src/worker/worker.h:42-86 | a piece of a blob that does not exist has no file and no words |
| Intermediate.PieceTextMeaning | w7/src/worker/workerimpl.cc:249-263 | a piece's file for a reducer consists of well-formed lines that add up to the piece's count of each of the reducer's words |
| Intermediate.Worker.StreamToFiles | w7/src/worker/workerimpl.cc:249-263 | each file holds the formatted part of the dictionary for its reducer, which are the entries whose quoted word hashes to it |
| Intermediate.Worker.MapShard | w7/src/worker/workerimpl.cc:85-105 | one piece uploads one blob a reducer with the right text and appends their names |
| Intermediate.Worker.DoMapWork | w7/src/worker/mrservice.h:245-283 | a map task uploads the files of all its pieces and reports exactly their names |
| Intermediate.Worker.DoReduceWork | w7/src/worker/mrservice.h:310-343 | a reduce task writes the reduction of its blobs read in order |
| WorkerSteps.MapWorkIsUploads | w7/src/worker/mrservice.h:258-264 | what a map task does to the container is a sequence of the job machine's upload steps |
| WorkerSteps.MapWorkBacksReply | w7/src/worker/mrservice.h:266-273 | after a map task every blob it reports is in the container |
| WorkerSteps.RunMapTask | w7/src/worker/mrservice.h:245-283 | running the worker's code on a received task refines upload steps and returns the reported names |
| WorkerSteps.RunReduceTask | w7/src/worker/mrservice.h:310-343 | running the worker's code on a reduce call yields the text of the machine's output step |
| WordCount.ShardsCountInput | w7/src/master/masterimpl.cc:754-776 | the pieces of all shards, each repaired alone, contain each word as often as the input |
| WordCount.ShardOrderIrrelevant | w7/src/master/masterimpl.cc:898-901 | the order in which shards complete does not change a reducer's output |
| WordCount.ExpectedIsWordCount | w7/src/worker/workerimpl.cc:112-130 | the output computed through shards, files and reduction is the word count of the input for that reducer |
| WordCount.PieceSays | w7/src/worker/workerimpl.cc:85-105 | an intermediate file says of a word the reducer's share of the piece's count |
| Checkpoint.RoundTrip | w7/src/master/masterimpl.cc:445-548 | a deserialized checkpoint gives back request, counts, container, shards in order and outputs, and rebuilds results and blob list from the log |
| Checkpoint.ConversionsWrap | w7/src/protos/mr.proto:39-43 | storing an offset keeps it modulo 2^32 as a signed number, reading it back keeps it modulo 2^64 |
| Checkpoint.OffsetSurvives | w7/src/protos/mr.proto:39-43 | an offset survives the int32 field if and only if it is below 2^31 or within the last 2^31 values of size_t |
| Checkpoint.LargeOffsetIsLost | w7/src/protos/mr.proto:39-43 | the offset 0xC0000000 comes back as a different one |
| Checkpoint.StaleLogExactly | w7/src/master/masterimpl.cc:52 | results and blobs rebuilt from a log are those of the present job if and only if the log held nothing before it |
| Checkpoint.FollowerRebuildsExactly | w7/src/master/masterimpl.cc:522-537 | the same for a pushed checkpoint and the state a follower makes of it |
| Checkpoint.StaleLogMixesJobs | w7/src/master/masterimpl.cc:522-537 | for one pair of logs of two jobs, the follower keeps the old result and both jobs' blobs |
| Checkpoint.Master.SerializeData | w7/src/master/masterimpl.cc:445-497 | the message lists the log, the shards with narrowed offsets, and the outputs in key order |
| Checkpoint.Master.DeserializeData | w7/src/master/masterimpl.cc:499-548 | all fields are replaced by the decoded message, the first result of a shard winning |
| Checkpoint.Master.QueueMissing | w7/src/master/masterimpl.cc:559-568 | the queue holds the shards without a result, in order |
| LeaderSafety.AtMostOneLeader | w7/src/master/masterimpl.cc:1327-1356 | at most one live master acts as leader and it has the smallest live number; in w7 /leader belongs to it and names it, in w6 the data of /masters is its path |
| LeaderSafety.CreateNeverCollides | w7/src/master/masterimpl.cc:1346-1349 | /leader does not exist when a master creates it |
| LeaderSafety.LeadershipMovesForward | w7/src/master/masterimpl.cc:1238-1325 | leadership passes only to younger masters, after the session of the older one has ended |
| LeaderSafety.NoElectionBesideLeader | w6/src/master/master.cc:115-123 | a master goes on to an election if and only if /masters was empty when it read it or the path it read is that of no live master; otherwise it waits |
| LeaderSafety.AnybodyMayJoin | w7/src/master/masterimpl.cc:1238-1325 | a new master may join at any time, with a number above all others and without any effect on them |
| LeaderSafety.AnySessionMayEnd | w7/src/master/masterimpl.cc:1238-1325 | any session may end at any time; only /leader goes with it, and only if it owned it |
| LeaderSafety.ListedOnce | w7/src/master/masterimpl.cc:1334-1344 | a child list names each live master exactly once |
| LeaderProgress.OldestCanLead | w7/src/master/masterimpl.cc:1327-1356 | in every reachable state the oldest live master that has not begun, with no recorded leader alive, can make itself the leader by steps of its own |
| LeaderProgress.SuccessionGoesOn | w7/src/master/masterimpl.cc:1238-1325 | however many leaders have been lost one after the other, the next master to join can lead |
| LeaderElection.NodeOrder | w7/src/master/masterimpl.cc:1232-1236 | zero-padded names are ordered as their sequence numbers |
| LeaderElection.NodeName | w7/src/master/masterimpl.cc:1232-1236 | a node is named master_ and its number with zeros in front to ten digits |
| LeaderElection.MatchIsLeast | w7/src/master/masterimpl.cc:1334-1344 | being first in a child list, however old, means being the oldest master alive |
| LeaderElector.Ensemble.ElectLeader | w7/src/master/masterimpl.cc:1327-1356 | whatever others do between its calls: true means the caller, if alive, is the oldest master and owns /leader; false means it, if alive, makes no claim and an older master was alive during the call |
| LeaderElector.Ensemble.PollForLeadership | w6/src/master/master.cc:105-140 | when the polling loop ends the caller, if alive, is the oldest master and /masters holds its path; while it goes on, an older master was alive meanwhile |
| Clients.FindMinReqHealthyClient | w7/src/master/masterimpl.cc:970-1006 | the first client whose last ping succeeded with the fewest requests of the kind is returned, none exactly when no ping succeeded |
| Clients.DealOut | w7/src/master/mrclient.h:183-247 | k requests dealt to clients that start level and stay healthy give each its fair share |
| Clients.NextIsRoundRobin | w7/src/master/masterimpl.cc:970-1006 | after k requests dealt the next client is number k modulo n |
| Clients.SharesAreFair | w7/src/master/masterimpl.cc:970-1006 | each share is the floor or ceiling of k/n, so no two differ by more than one |
| Clients.WorkerList.UpdateWorkers | w7/src/master/masterimpl.cc:592-657 | the list becomes the survivors in their old order, untouched, plus new clients with the data of their nodes as addresses and no requests; its paths are exactly /workers/ and the names ZooKeeper lists, without duplicates |
| Clients.WorkerList.RemoveMissing | w7/src/master/masterimpl.cc:633-655 | removing while iterating keeps exactly the listed clients, in order, in vector and map alike |
| Clients.WorkerList.AddMissing | w7/src/master/masterimpl.cc:616-631 | every listed node without client gets one, appended |
| CallObjects.Server.HandleRpcs | w7/src/worker/mrservice.h:135-152 | after any number of events one object of each kind waits, all others await their reply event, every tag delivered is of a live object, each event was either a request, answered once and in order, or the end of a reply, which deleted an object |
| CallObjects.Server.HandleEvent | w7/src/worker/mrservice.h:135-152 | one event adds one answered request and one object awaiting its reply event, or deletes one such object |
| CallObjects.Server.Proceed | w7/src/worker/mrservice.h:195-219 | a request event is answered and its object replaced by a new waiting one; a reply event deletes its object |
| Query.QueryRoundTrip | w7/client.sh:224 | parsing what the client prints gives each field back and nothing else, for distinct keys and values that may contain '=' |
| Query.GetQueries | w7/src/master/requesthandler.h:106-137 | the in-place replacement and the token loop compute the specified map, tokens without '=' ignored and later values winning |
| MapDispatcher.Dispatcher.InvokeMapTask | w7/src/master/masterimpl.cc:856-867 | invoking, counting and popping is the machine's dispatch step |
| MapDispatcher.Dispatcher.DispatchFirst | w7/src/master/masterimpl.cc:850-869 | one turn of the inner loop takes the first task off the queue and counts one call more, completions in between included |
| MapDispatcher.Dispatcher.AcceptResult | w7/src/master/masterimpl.cc:894-903 | the first success of a shard is entered with its blobs and container, a later one changes nothing |
| MapDispatcher.Dispatcher.AppendToReplList | w7/src/master/masterimpl.cc:90-96 | the success just reported goes to the end of the log |
| MapDispatcher.Dispatcher.DispatchQueue | w7/src/master/masterimpl.cc:850-869 | the inner loop ends with the queue empty or exactly 11 calls counted, having only taken dispatch steps |
| MapDispatcher.Dispatcher.ProcessResponses | w7/src/master/masterimpl.cc:878-910 | the response loop ends with the list empty, however many completions arrive meanwhile |
| MapDispatcher.Dispatcher.Pass | w7/src/master/masterimpl.cc:843-920 | one turn of the outer loop, completions in between included, brings the end closer and is the last exactly when there are as many results as mappers |
| ReduceDispatcher.Dispatcher.InvokeReduceTask | w7/src/master/masterimpl.cc:1096-1119 | selecting blobs, invoking, counting and popping is the machine's dispatch step |
| ReduceDispatcher.Dispatcher.AsyncCompleteReduceRpc | w7/src/master/masterimpl.cc:127-180 | handling one completion event is the machine's completion step |
| ReduceDispatcher.Dispatcher.WaitForRound | w7/src/master/masterimpl.cc:1122-1124 | the wait ends with every call of the round answered |
| ReduceDispatcher.Dispatcher.CollectOutputs | w7/src/master/masterimpl.cc:1157-1169 | the map holds the first recorded value of every successful job |
| Intermediate.Worker.AddIntermediateFiles | w7/src/worker/workerimpl.cc:307-317 | every intermediate file is uploaded under its name and the names are appended in reducer order |
| Scripts.CountFields | w7/src/python/map.py:15-22 | the inner loop counts exactly the non-empty fields |
| Checkpoint.Master.SerializeOutputs | w7/src/master/masterimpl.cc:484-489 | the list holds every entry of the output map once, in key order |
| Checkpoint.DecodeJobList | w7/src/master/masterimpl.cc:522-537 | results, blob list and container are the ones of the decoded log |
| Clients.WorkerList.RemoveClient | w7/src/master/masterimpl.cc:649-654 | one client leaves vector and map, all others keep place and entry |
| Clients.WorkerList.KeepOrRemove | w7/src/master/masterimpl.cc:635-655 | one turn of the removal loop keeps a listed client or removes an unlisted one without skipping its successor |
| Clients.WorkerList.AddWorker | w7/src/master/masterimpl.cc:617-630 | a listed node without client gets a new one with its address, a node with a client is left alone |
| Clients.WorkerList.NewWorker | w7/src/master/masterimpl.cc:620-629 | a fresh client with the given address and no requests is appended for a node that had none |
| CallObjects.Server.HandleAndReply | w7/src/worker/mrservice.h:202-209 | a waiting object hands over to a new one of its kind, answers its request, and awaits its reply event |
| LeaderElector.Ensemble.IsFirst | w7/src/master/masterimpl.cc:1334-1344 | the comparison succeeds, or the caller, if alive, was not the oldest when it read the list |
| LeaderElector.Ensemble.ClaimLeader | w7/src/master/masterimpl.cc:1344-1352 | afterwards the caller, if alive, owns /leader, which names it |
| LeaderElector.Ensemble.FindNextLeader | w6/src/master/master.cc:109-133 | a round finds the caller first, or an older master was alive during it |
| LeaderElector.Ensemble.NoCurrentLeader | w6/src/master/master.cc:106-123 | reading /masters and asking for the node it names, with others active in between, finds no leader, or an older master was alive |
| Query.NextToken | w7/src/master/requesthandler.h:122-123 | one extraction yields the next maximal run without blanks and stops behind it |
| Query.WhiteSpaceSeparates | w7/src/master/requesthandler.h:122-123 | a blank and any character from tab to carriage return end a token |
| Decimal.ParseToString | w7/src/worker/workerimpl.cc:249-263 | reading a printed number gives the number back |
| Decimal.ToStringSpells | w7/src/worker/workerimpl.cc:254-256 | a number is printed as its decimal digits, most significant first, without a zero in front |

## Left out

- Floating point: overflow and subnormal numbers of `float`, which need sums of 2^128 bytes or quotients below 2^-126; shard sizes from 2^24 bytes on are the rounded ones, for an arbitrary rounding.
- Numbers that Python's `int` reads besides digits: signs and underscores, which no worker writes.
- Text beyond printable ASCII and newlines: tabs, carriage returns, non-ASCII letters and undecodable bytes, which Python treats specially.
- Memory-level races: unlocked reads of shared lists, references to locals after return, destruction of call objects; the atomic steps stand for intact data structures.
- Azure failures other than a ranged read past the end of a blob, partial uploads of one blob, and the leftovers of an earlier job in a container.
- gRPC, ZooKeeper and HTTP internals; a call ends with one completion event, and an unanswered call ends by its deadline.
- `std::hash` and the choice of the worker in the dispatch machines are arbitrary; the choice itself is in `Clients`.
- Ping timing: a client's ping status is read as it is; `findMinReqHealthyClient` returns none where the code waits for the next ping.
- Fairness of elections and replication: a follower may miss its wake-up and a push may be skipped; what is claimed is safety and that the oldest master can always go on.
- Fairness: with several leaders at once or with workers and followers that never stop, no schedule is claimed to give a leader its turn; its own steps are bounded and it can always finish.
- A checkpoint pushed before sharding, and a leader that dies before its first push: the job is then lost.
- Several jobs: request ids, concurrent jobs and a log carried over, beyond the lemmas about a stale log.
- Deliberate failure injection, sleeps and logging.
- The worker's temporary local files: their names and leftovers; a failed download yields no words.
- `ExchangeInfo` and the ping calls' contents; `getWorkerStatus`.
- w6 beyond the election loop, the greeter calls, scripts except the job URL, deployment files and test data.
