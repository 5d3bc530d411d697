# DIS SDK batch upload: retry and merge, in Dafny

This project models the batch-upload core of the DIS (Data Ingestion Service)
Java SDK and proves properties of it.

- **`DISClient.innerPutRecordsWithRetry`** submits a batch of records. It
  folds each round's per-record results into one list indexed by original
  position. It resubmits only the records whose error code is retriable, until
  none is left or `recordsRetries` runs out. It then builds the final result
  with a failed count. The loop is an imperative method over an array of
  result slots. It is proved equal to a functional specification (`Round`,
  `Absorb`, `Iterate`, `Finish`), and the properties are lemmas about that
  specification.
- **`innerPutRecordsSupportingCache`** wraps the retry loop. With the local
  data cache enabled, the records that still failed replace the request's
  records and go to the cache. A failure that is not an HTTP client error puts
  the whole request into the cache and is rethrown. This includes a `null`
  slot or an out-of-range index met while the failed records are copied.
- **`PutRecordsTrafficLimitRetryFuture`** and its callback do the same
  asynchronously. Callbacks and `get()` passes merge round results under two
  gates:
  - `retryMergeIndex` makes each round fold at most once, in order;
  - `retryCount`, together with the retry lock, makes each round advance at
    most once.

  The future is a class whose methods are proved against functions on a value
  `FutureState`. Arbitrary interleavings of calls are replayed over that value.
- **`SdkDigestInputStream.skip`** skips bytes by reading them into a scratch
  buffer, so the digest still sees them.
- **`Classes.childClassOf`** walks up an object's superclass chain.
- **`AppsResource`** and **`CursorResource`** are REST resource descriptors
  with a default name.

The transport is a parameter. `submit(k, batch)` is the reply to the k-th
submission: an exception, `null`, or a result. The retriable-error test
(`isRecordsRetriableErrorCode`) is a parameter `retriable`. A `null` or empty
error code is the empty string.

The back-off interval is reset before a retry only when the previous result
did not fail entirely (`currentFailed != size`, DISClient.java line 155).

Files:

| file | module | what it holds |
|---|---|---|
| put_records.dfy | PutRecords | records, result entries, results, the transport, sequence helpers |
| retry_fold.dfy | RetryFold | the per-round fold: index map, queue of retriable positions, overwritten slots |
| dis_client.dfy | DISClient | the synchronous retry loop: specification functions and the imperative method |
| dis_client_properties.dfy | RetryProperties | lemmas about the synchronous loop |
| supporting_cache.dfy | SupportingCache | the cache wrapper |
| dis_client_async2.dfy | DISClientAsync2 | the asynchronous future and callback |
| dis_client_async2_properties.dfy | AsyncProperties | lemmas about the future under any sequence of calls |
| sdk_digest_input_stream.dfy | SdkDigestInputStream | the digest stream and `skip` |
| classes.dfy | Classes | `childClassOf` |
| apps_resource.dfy | AppsResource | the apps resource |
| cursor_resource.dfy | CursorResource | the cursors resource |

## Model

| member | source | states |
|---|---|---|
| PutRecords.CountErrors | g42cloud-sdk-java-dis/src/main/java/com/g42cloud/dis/DISClient.java:236-245 | the number of entries carrying an error code never exceeds the number of entries |
| RetryFold.QueuedFacts | g42cloud-sdk-java-dis/src/main/java/com/g42cloud/dis/DISClient.java:210-226 | the fold queues, in strictly increasing order and inside the request, the original position of exactly the entries with a retriable error code |
| RetryFold.QueuedPlusPermanent | g42cloud-sdk-java-dis/src/main/java/com/g42cloud/dis/DISClient.java:210-226 | queued retriable errors plus `noRetryRecordsCount` equal the round's failed entries |
| RetryFold.OverwriteFacts | g42cloud-sdk-java-dis/src/main/java/com/g42cloud/dis/DISClient.java:222-224 | entry i of a round lands in the slot of its original position, and every other slot is untouched |
| RetryFold.OverwriteErrors | g42cloud-sdk-java-dis/src/main/java/com/g42cloud/dis/DISClient.java:222-224 | after the overwrite, the error count of the slots changes by the round's errors minus the errors it overwrote |
| DISClient.FoldEntries | g42cloud-sdk-java-dis/src/main/java/com/g42cloud/dis/DISClient.java:210-226 | the for loop over a reply either reports an entry without a slot (index out of bounds) or overwrites the slots, queues the retriable positions, appends their original records to the next request and counts the permanent failures |
| DISClient.BeforeRetry | g42cloud-sdk-java-dis/src/main/java/com/g42cloud/dis/DISClient.java:145-160 | before a retry: the lock is taken once at the first retry, the interval is reset unless the previous round failed entirely, and one back-off is slept |
| DISClient.HandleResult | g42cloud-sdk-java-dis/src/main/java/com/g42cloud/dis/DISClient.java:185-226 | a returned result either ends the call (early return, negative count, unmapped entry) or yields the next loop state of the specification, with the result list allocated in the first folded round |
| DISClient.Finalize | g42cloud-sdk-java-dis/src/main/java/com/g42cloud/dis/DISClient.java:230-245 | the lock is released, then the result is the merged slots with `|retry index| + noRetryRecordsCount` failed, or every record failed with no entries when nothing was folded |
| DISClient.PutRecordsWithRetry | g42cloud-sdk-java-dis/src/main/java/com/g42cloud/dis/DISClient.java:132-246 | the imperative loop returns or throws exactly what the specification `Iterate` gives, with the same submissions, lock and back-off events |
| RetryProperties.SubmissionBounds | g42cloud-sdk-java-dis/src/main/java/com/g42cloud/dis/DISClient.java:143-160 | between 1 and `recordsRetries + 1` submissions, the first being the caller's batch; one back-off per retry; the retry lock is taken and released exactly once when there is a retry, never otherwise |
| RetryProperties.ResetAfterPartialFailure | g42cloud-sdk-java-dis/src/main/java/com/g42cloud/dis/DISClient.java:155-158 | a retry's events hold one interval reset exactly when the round before it was answered with a result whose failed count differs from its number of entries; a null answer or a result that failed entirely adds none |
| RetryProperties.TraceSubmissions | g42cloud-sdk-java-dis/src/main/java/com/g42cloud/dis/DISClient.java:176-229 | from any loop state, the loop's submissions extend those made so far by the pending request, and never exceed `recordsRetries + 1` |
| RetryProperties.TraceCounts | g42cloud-sdk-java-dis/src/main/java/com/g42cloud/dis/DISClient.java:145-160 | from any loop state, back-offs, locks and unlocks are counted exactly by the submissions that follow |
| RetryProperties.RoundKeepsTally | g42cloud-sdk-java-dis/src/main/java/com/g42cloud/dis/DISClient.java:199-226 | one round keeps the invariant that the slots' errors equal queued plus permanent failures, and a result it returns is exact |
| RetryProperties.AbsorbKeepsTally | g42cloud-sdk-java-dis/src/main/java/com/g42cloud/dis/DISClient.java:199-226 | a fold keeps that invariant when the reply has one entry per submitted record |
| RetryProperties.FailedCountExact | g42cloud-sdk-java-dis/src/main/java/com/g42cloud/dis/DISClient.java:236-245 | with a transport that answers one entry per record and counts truthfully, a returned result either has one entry per original record, none of them `null`, with a failed count equal to the entries that carry an error, or is the fallback with every record failed and no entries (when that fallback arises is stated by `FallbackOnlyWithoutResult`) |
| RetryProperties.FallbackOnlyWithoutResult | g42cloud-sdk-java-dis/src/main/java/com/g42cloud/dis/DISClient.java:236-245 | for a non-empty batch and a well-behaved transport, the fallback result with every record failed and no entries is returned exactly when no submission was answered with a result |
| RetryProperties.UnansweredFrom | g42cloud-sdk-java-dis/src/main/java/com/g42cloud/dis/DISClient.java:193-245 | from any loop state, the result list stays unallocated exactly while no submission has been answered with a result, and so the fallback arises only then |
| RetryProperties.EarlyReturn | g42cloud-sdk-java-dis/src/main/java/com/g42cloud/dis/DISClient.java:185-191 | a first result with no failure, or any first result with retries disabled, is returned as it is after one submission, with no lock and no back-off |
| RetryProperties.FirstFaultPropagates | g42cloud-sdk-java-dis/src/main/java/com/g42cloud/dis/DISClient.java:176-183 | an exception from the first submission reaches the caller |
| RetryProperties.LaterFaultFinalizes | g42cloud-sdk-java-dis/src/main/java/com/g42cloud/dis/DISClient.java:176-183 | an exception from a later submission ends the loop with the merged slots as the result, and the records in flight count as failed |
| RetryProperties.SubmissionsOfRound | g42cloud-sdk-java-dis/src/main/java/com/g42cloud/dis/DISClient.java:162-176 | one iteration submits exactly the pending request, once |
| RetryProperties.FoldedRequest | g42cloud-sdk-java-dis/src/main/java/com/g42cloud/dis/DISClient.java:210-226 | the next request is the original records at the queued positions, in order, and a subsequence of the request it answers |
| RetryProperties.RoundKeepsPending | g42cloud-sdk-java-dis/src/main/java/com/g42cloud/dis/DISClient.java:193-229 | a round that continues leaves a pending request drawn, in order, from the previous one |
| RetryProperties.ResubmissionsShrink | g42cloud-sdk-java-dis/src/main/java/com/g42cloud/dis/DISClient.java:210-229 | the batches form a chain: the first is the caller's, and each later one keeps, in order, some records of the one before |
| RetryProperties.Exhaustion | g42cloud-sdk-java-dis/src/main/java/com/g42cloud/dis/DISClient.java:229-245 | when every reply has one retriable error per record, the loop submits `recordsRetries + 1` times and returns every record as failed |
| RetryProperties.NoResult | g42cloud-sdk-java-dis/src/main/java/com/g42cloud/dis/DISClient.java:193-196 | when every submission returns null, the loop makes `recordsRetries + 1` submissions and returns every record failed, with no entries |
| SupportingCache.PutRecordsRequest.constructor | g42cloud-sdk-java-dis/src/main/java/com/g42cloud/dis/DISClient.java:87-88 | the request holds the caller's records |
| SupportingCache.ErrorPositionsFacts | g42cloud-sdk-java-dis/src/main/java/com/g42cloud/dis/DISClient.java:104-109 | the copy loop visits exactly the failed entries, each once and in order |
| SupportingCache.PutRecordsSupportingCache | g42cloud-sdk-java-dis/src/main/java/com/g42cloud/dis/DISClient.java:87-130 | with the cache disabled the call is the retry loop; with it enabled, failed records replace the request's and are cached; an exception other than an HTTP client error caches the whole request and is rethrown, and so does a copy loop that meets a `null` slot (`NullPointerException`) or an error entry past the request's end (`IndexOutOfBoundsException`) |
| SupportingCache.CopyCompletes | g42cloud-sdk-java-dis/src/main/java/com/g42cloud/dis/DISClient.java:105-110 | the copy loop runs to the end of the entries exactly when no slot is `null` and every failed entry has a request record at its index |
| SupportingCache.CopyFaultCachesRequest | g42cloud-sdk-java-dis/src/main/java/com/g42cloud/dis/DISClient.java:100-124 | when some record failed and the copy loop cannot finish, the call raises, caches the request's records unchanged and leaves them in the request; the exception is a `NullPointerException` when every failed entry is in range and an `IndexOutOfBoundsException` when no slot is `null` |
| SupportingCache.ShortReplyCachesRequest | g42cloud-sdk-java-dis/src/main/java/com/g42cloud/dis/DISClient.java:98-124 | for two records whose one-round reply holds a single non-retriable error entry, the retry loop returns a result whose second slot is `null`, and the cached call raises `NullPointerException` with the whole request cached |
| SupportingCache.CachedAreFailed | g42cloud-sdk-java-dis/src/main/java/com/g42cloud/dis/DISClient.java:100-111 | the cache receives one record per failed entry, the records at the failed positions in request order, and no other |
| SupportingCache.CacheHoldsFailedRecords | g42cloud-sdk-java-dis/src/main/java/com/g42cloud/dis/DISClient.java:98-125 | with a well-behaved transport the cache never changes how the call ends; when some record failed, the request is left holding, in order, the records the cache receives: exactly `failedRecordCount` of them when the result has entries, and none when no round was answered with a result (the fallback result has no entries, so the copy loop finds no failed entry although every record counts as failed) |
| DISClientAsync2.FoldRoundSpec | g42cloud-sdk-java-dis/src/main/java/com/g42cloud/dis/DISClientAsync2.java:411-433 | the fold keeps the length of the base, collects nothing when it aborts or when retries are over, and its batch is the records at the collected positions |
| DISClientAsync2.FoldRound | g42cloud-sdk-java-dis/src/main/java/com/g42cloud/dis/DISClientAsync2.java:411-433 | the loop over a round's entries computes exactly the fold of the specification |
| DISClientAsync2.FoldLimitAt | g42cloud-sdk-java-dis/src/main/java/com/g42cloud/dis/DISClientAsync2.java:411-433 | the fold stops exactly at the first entry that does not fit the index map, the request or the base |
| DISClientAsync2.MergeResultFacts | g42cloud-sdk-java-dis/src/main/java/com/g42cloud/dis/DISClientAsync2.java:397-442 | a merge creates or keeps the base, never clears `finished`, records the round as folded, and collects strictly increasing positions inside the request whose records are the next batch; a merge that leaves the future running was below `recordsRetries` |
| DISClientAsync2.HandleKeepsGates | g42cloud-sdk-java-dis/src/main/java/com/g42cloud/dis/DISClientAsync2.java:345-395 | whatever its round index, a merge-and-handle keeps both gates: rounds fold in increasing order, at most once, and round k advances exactly once, as the k-th advance |
| DISClientAsync2.ExceptionKeepsGates | g42cloud-sdk-java-dis/src/main/java/com/g42cloud/dis/DISClientAsync2.java:339-343 | `mergeException` keeps both gates and never moves the merge gate back |
| DISClientAsync2.HandleKeepsGood | g42cloud-sdk-java-dis/src/main/java/com/g42cloud/dis/DISClientAsync2.java:345-395 | a merge for a submitted round keeps the reachable-state invariant |
| DISClientAsync2.ExceptionKeepsGood | g42cloud-sdk-java-dis/src/main/java/com/g42cloud/dis/DISClientAsync2.java:339-343 | an exception for a submitted round keeps the reachable-state invariant |
| DISClientAsync2.GetStepAdvances | g42cloud-sdk-java-dis/src/main/java/com/g42cloud/dis/DISClientAsync2.java:445-472 | a `get()` step that gets null has either advanced one round, lowering the measure, or found a finished future without a base |
| DISClientAsync2.RetryFuture.constructor | g42cloud-sdk-java-dis/src/main/java/com/g42cloud/dis/DISClientAsync2.java:305-333 | a new future has submitted the whole batch as round 0, with both gates at their start |
| DISClientAsync2.RetryFuture.MergeResult | g42cloud-sdk-java-dis/src/main/java/com/g42cloud/dis/DISClientAsync2.java:397-442 | the method leaves the state, fault and collected batch that `MergeResultSpec` gives |
| DISClientAsync2.RetryFuture.MergeRetryHandle | g42cloud-sdk-java-dis/src/main/java/com/g42cloud/dis/DISClientAsync2.java:345-395 | the method leaves the state and reply that `MergeRetryHandleSpec` gives |
| DISClientAsync2.RetryFuture.MergeException | g42cloud-sdk-java-dis/src/main/java/com/g42cloud/dis/DISClientAsync2.java:335-343 | the method leaves the state and newest result that `MergeExceptionSpec` gives |
| DISClientAsync2.RetryFuture.Get | g42cloud-sdk-java-dis/src/main/java/com/g42cloud/dis/DISClientAsync2.java:445-503 | the loop of `get()`, one pass per nested call and with the round it was entered at kept aside, ends in the state and outcome `GetSpec` gives |
| DISClientAsync2.RetryCallback.constructor | g42cloud-sdk-java-dis/src/main/java/com/g42cloud/dis/DISClientAsync2.java:269-274 | the callback is bound to its future and round |
| DISClientAsync2.RetryCallback.OnError | g42cloud-sdk-java-dis/src/main/java/com/g42cloud/dis/DISClientAsync2.java:293-302 | the callback's `onError` leaves what `OnErrorSpec` gives |
| DISClientAsync2.RetryCallback.OnSuccess | g42cloud-sdk-java-dis/src/main/java/com/g42cloud/dis/DISClientAsync2.java:277-290 | the callback's `onSuccess` leaves what `OnSuccessSpec` gives |
| AsyncProperties.MergeKeepsBase | g42cloud-sdk-java-dis/src/main/java/com/g42cloud/dis/DISClientAsync2.java:397-400 | the first result merged becomes the base, and a base keeps its length from then on |
| AsyncProperties.HandleKeepsBase | g42cloud-sdk-java-dis/src/main/java/com/g42cloud/dis/DISClientAsync2.java:345-395 | a merge-and-handle never drops a base nor changes its length |
| AsyncProperties.OnSuccessState | g42cloud-sdk-java-dis/src/main/java/com/g42cloud/dis/DISClientAsync2.java:277-290 | `onSuccess` leaves the merge's state, followed by `mergeException` when the merge threw |
| AsyncProperties.OnSuccessKeepsGood | g42cloud-sdk-java-dis/src/main/java/com/g42cloud/dis/DISClientAsync2.java:277-302 | a callback for a submitted round keeps the invariant, never moves the round back and never drops the base |
| AsyncProperties.StepKeepsGood | g42cloud-sdk-java-dis/src/main/java/com/g42cloud/dis/DISClientAsync2.java:264-472 | any one call keeps the invariant, never moves the round back and never drops the base; a failed `get()` pass acts as `mergeException(e, 0)` when its `get()` was entered at round 0, whatever round the pass is at |
| AsyncProperties.ReplayKeepsGood | g42cloud-sdk-java-dis/src/main/java/com/g42cloud/dis/DISClientAsync2.java:264-472 | any sequence of calls keeps the invariant, never moves the round back and never drops the base |
| AsyncProperties.AtMostOnce | g42cloud-sdk-java-dis/src/main/java/com/g42cloud/dis/DISClientAsync2.java:345-395 | after any sequence of callbacks and `get()` passes, rounds were folded in strictly increasing order (each at most once) and only below the merge gate, round k was advanced exactly once as the k-th advance, and one batch was submitted per advance after the caller's |
| AsyncProperties.BaseNeverReplaced | g42cloud-sdk-java-dis/src/main/java/com/g42cloud/dis/DISClientAsync2.java:397-400 | once a result is merged, later calls never drop the base nor change its length |
| AsyncProperties.EarlyFinish | g42cloud-sdk-java-dis/src/main/java/com/g42cloud/dis/DISClientAsync2.java:401-405 | round 0 without failures, or retries disabled, finishes the future with nothing collected and nothing submitted, and hands back the base |
| AsyncProperties.FoldQueuesRetriable | g42cloud-sdk-java-dis/src/main/java/com/g42cloud/dis/DISClientAsync2.java:407-425 | a complete fold collects exactly the original positions of the retriable failures, in order; nothing while retries are over |
| AsyncProperties.FoldOverwritesSlots | g42cloud-sdk-java-dis/src/main/java/com/g42cloud/dis/DISClientAsync2.java:416-432 | after round 0, entry i overwrites the base slot of its original position, other slots are untouched, and the successes are the entries without an error |
| AsyncProperties.FailedCountDrops | g42cloud-sdk-java-dis/src/main/java/com/g42cloud/dis/DISClientAsync2.java:435-437 | after round 0 the base failed count drops by exactly the round's entries without an error code |
| AsyncProperties.FinishedHandsBackBase | g42cloud-sdk-java-dis/src/main/java/com/g42cloud/dis/DISClientAsync2.java:354-356 | a finished future submits nothing more and hands back its base (or null without one), or the fold's exception |
| AsyncProperties.OnlyCurrentRoundAdvances | g42cloud-sdk-java-dis/src/main/java/com/g42cloud/dis/DISClientAsync2.java:360-391 | only the caller of round `retryCount` that holds the lock advances, installing the positions its own fold collected and submitting exactly their records; any other caller changes neither the round nor the submissions |
| AsyncProperties.LockMissDropsRetryBatch | g42cloud-sdk-java-dis/src/main/java/com/g42cloud/dis/DISClientAsync2.java:360-391 | a callback that folds a round with records to retry but misses the lock loses them: the next `get()` pass folds nothing, advances, and submits an empty batch |
| AsyncProperties.OnSuccessPassesRoundResult | g42cloud-sdk-java-dis/src/main/java/com/g42cloud/dis/DISClientAsync2.java:277-290 | when the merge hands back the base, the user's handler gets the round's own result, while the base keeps the length of the first result |
| AsyncProperties.ExceptionFinishes | g42cloud-sdk-java-dis/src/main/java/com/g42cloud/dis/DISClientAsync2.java:293-302 | `mergeException` finishes the future and hands back the base; the handler gets the exception exactly when there is no base |
| AsyncProperties.GetConvertsOnlyRoundZero | g42cloud-sdk-java-dis/src/main/java/com/g42cloud/dis/DISClientAsync2.java:445-468 | whatever pass meets a failed future: a `get()` entered at round 0 finishes the future and delivers the base of that pass when there is one, and rethrows the failure otherwise; a `get()` entered later rethrows it with that pass's state unchanged; the entry round makes no difference when no future fails |
| AsyncProperties.LaterFailureDeliversBase | g42cloud-sdk-java-dis/src/main/java/com/g42cloud/dis/DISClientAsync2.java:445-468 | on one record, a round 0 with a retriable error followed by a failed round 1: `get()` made on a new future submits round 1, finishes the future and delivers round 0's result |
| AsyncProperties.GetDeliversBase | g42cloud-sdk-java-dis/src/main/java/com/g42cloud/dis/DISClientAsync2.java:445-472 | `get()`, entered at any round, delivers only the base of a finished future, recurses without end only on a finished future without a base, and never moves the round back |
| SdkDigestInputStream.SkipResultBounds | g42cloud-sdk-java-dis/src/main/java/com/g42cloud/dis/core/internal/SdkDigestInputStream.java:36-75 | nothing is skipped for n <= 0; -1 exactly when a positive skip finds the end of the stream; otherwise between 1 and n bytes, all n unless the stream ended first |
| SdkDigestInputStream.DigestStream.constructor | g42cloud-sdk-java-dis/src/main/java/com/g42cloud/dis/core/internal/SdkDigestInputStream.java:61-75 | a new stream has nothing digested and nothing requested |
| SdkDigestInputStream.DigestStream.Read | g42cloud-sdk-java-dis/src/main/java/com/g42cloud/dis/core/internal/SdkDigestInputStream.java:68 | a read returns -1 at the end of the stream, otherwise between 1 and len bytes, which leave the stream, land in the buffer and reach the digest |
| SdkDigestInputStream.DigestStream.Skip | g42cloud-sdk-java-dis/src/main/java/com/g42cloud/dis/core/internal/SdkDigestInputStream.java:61-75 | `skip(n)` returns what the skip contract gives for the bytes left; exactly the skipped bytes leave the stream and reach the digest; every read asks for at least 1 byte and at most `min(SKIP_BUF_SIZE, m)`, m being the bytes still to skip when it is asked |
| Classes.Chain | g42cloud-sdk-java-dis/src/main/java/com/g42cloud/dis/core/util/Classes.java:50-58 | the superclass chain starts at the class itself, each class is followed by its superclass, and the last class has no superclass |
| Classes.ChildClassOf | g42cloud-sdk-java-dis/src/main/java/com/g42cloud/dis/core/util/Classes.java:40-59 | the method's loop returns what the walk up the chain gives |
| Classes.WalkFound | g42cloud-sdk-java-dis/src/main/java/com/g42cloud/dis/core/util/Classes.java:50-58 | a class the walk finds lies on the chain and has the parent class as its superclass |
| Classes.WalkMisses | g42cloud-sdk-java-dis/src/main/java/com/g42cloud/dis/core/util/Classes.java:50-58 | the walk finds nothing exactly when no class of the chain has the parent class as its superclass |
| Classes.WalkToRoot | g42cloud-sdk-java-dis/src/main/java/com/g42cloud/dis/core/util/Classes.java:50-58 | with a null parent class the walk ends at the root of the chain |
| Classes.ChildClassOfFacts | g42cloud-sdk-java-dis/src/main/java/com/g42cloud/dis/core/util/Classes.java:29-59 | null for a null instance, for the class object of `Object` and for an interface parent; otherwise a class of the chain whose superclass is the parent class, null exactly when none has it, and the root for a null parent |
| AppsResource.Named | g42cloud-sdk-java-dis/src/main/java/com/g42cloud/dis/core/restresource/AppsResource.java:35-38 | the two-argument constructor keeps name and id and has no action |
| AppsResource.WithId | g42cloud-sdk-java-dis/src/main/java/com/g42cloud/dis/core/restresource/AppsResource.java:30-33 | the one-argument constructor keeps the id and has no name and no action |
| AppsResource.GetResourceName | g42cloud-sdk-java-dis/src/main/java/com/g42cloud/dis/core/restresource/AppsResource.java:47-55 | the name is never empty: the given one when not empty, `apps` exactly when none was given or `apps` was |
| AppsResource.ConstructorsRead | g42cloud-sdk-java-dis/src/main/java/com/g42cloud/dis/core/restresource/AppsResource.java:30-64 | each constructor reads back through the getters: `apps` or the name given, the id given, and the action given or none |
| CursorResource.WithId | g42cloud-sdk-java-dis/src/main/java/com/g42cloud/dis/core/restresource/CursorResource.java:35-38 | the one-argument constructor keeps the id and has no name |
| CursorResource.GetResourceName | g42cloud-sdk-java-dis/src/main/java/com/g42cloud/dis/core/restresource/CursorResource.java:46-54 | the name is never empty: the given one when not empty, `cursors` exactly when none was given or `cursors` was |
| CursorResource.ConstructorsRead | g42cloud-sdk-java-dis/src/main/java/com/g42cloud/dis/core/restresource/CursorResource.java:35-65 | each constructor reads back as `cursors` or the name given, with the id given and never an action |

## Left out

- Threads and locks are not modelled as such. A callback's `tryLock` outcome is an input, and `get()` is taken to hold the lock. Interleavings are sequences of whole calls, each atomic. This matches the atomic compare-and-set gates, but not a finer interleaving inside a call.
- `get(timeout)` is modelled as `get()`. The timeout is passed through to the inner future and does not change the merge logic.
- `putRecordsAsync` submits round 0 (DISClientAsync2.java line 231) before it installs that round's future (line 232). A round-0 callback that advances inside that window has its round-1 future overwritten by round 0's, and a later `get()` would fold round 0's result as round 1. The model's new future is created atomically and `get()` always waits on the future of round `retryCount`, so this window is not captured.
- `ExecutionException` wrapping is left out. A failed inner future is its exception.
- A `null` result from an asynchronous round is left out. So are exceptions thrown by the user's handler.
- The round-0 result and the base are the same Java object. The model keeps them as values, so aliasing is not captured.
- `ExponentialBackOff` arithmetic (interval growth, jitter, sleeping) is left out. The model only records the reset, back-off, lock and unlock events in order.
- `CacheUtils.putToCache`, the cache resender thread and logging are left out. What would be put into the cache is an output of the model.
- `isRecordsRetriableErrorCode` is a parameter, since its code is not part of this model.
- The stream name and id copied into the retry request are not modelled. Only the records are.
- A reply from the service never holds a `null` entry (the `ServiceResult` type). Such an entry would make the fold throw a `NullPointerException` at `getErrorCode()`, which is not modelled. The result list the retry loop builds can still hold `null` slots (`Unset`) when a reply is shorter than its batch.
- A `PutRecordsResult` default constructed with no entries has the records list `[]`.
- DISClientAsync2.RetryFuture.Get: requires the reachable-state invariant `Good`. `AsyncProperties.ReplayKeepsGood` and `AsyncProperties.AtMostOnce` show it holds after any sequence of the modelled calls on a new future. The source states no such precondition, but no other state can arise.
- SdkDigestInputStream.DigestStream.Read: each read hands over a fixed positive number of bytes, at most `chunk`. A read that returns 0 bytes without being at the end of the stream is not modelled, because the InputStream contract for a positive length excludes it.
- SdkDigestInputStream.DigestStream.Skip: an `IOException` thrown by `read` propagates out of `skip` in the source; the model's reads never fail, so that path is not modelled.
- `SdkDigestInputStream` members other than `skip` (`release`, the digest update in `read`, `getMessageDigest`) are left out. The digest is the sequence of bytes fed to it, not a hash.
- `Classes.jarFileOf` is left out: it is file-system I/O. Classes are numbers with a superclass of smaller number, so chains are finite and acyclic.
- The REST resource interfaces that the resource classes implement are left out. Only the constructors and getters are modelled.
