/** `DISClient.innerPutRecordsWithRetry`: submit a batch, fold each round's
    per-record results into one array indexed by original position, resubmit
    only the records whose error is retriable, and build the final result. */
module DISClient {
  import opened PutRecords
  import opened RetryFold

  /** What the loop does that can be observed from outside: the submissions,
      the retry lock, and the calls on the back-off policy. */
  datatype Event =
    | Submit(batch: seq<Record>)   // one call of `innerPutRecords`
    | Lock                         // `recordsRetryLock.lock()`
    | ResetInterval                // `backOff.resetCurrentInterval()`
    | BackOff                      // `getNextBackOff()` followed by `backOff(sleepMs)`
    | Unlock                       // `recordsRetryLock.unlock()` in `finally`

  datatype Outcome = Returned(result: PutRecordsResult) | Raised(error: Exception)

  datatype Run = Run(outcome: Outcome, trace: seq<Event>)

  /** The local variables of the loop at the head of an iteration. */
  datatype LoopState = LoopState(
    retryCount: int,
    currentFailed: int,
    noRetry: nat,                         // noRetryRecordsCount
    previous: Option<PutRecordsResult>,   // putRecordsResult, None when null
    slots: Option<seq<ResultEntry>>,      // putRecordsResultEntryList
    retryIndex: Option<seq<nat>>,
    request: seq<Record>,                 // records of retryPutRecordsRequest
    trace: seq<Event>)

  /** What one iteration leads to: the method returns or throws, the loop is
      left by `break`, or the loop condition is evaluated on the next state. */
  datatype Step = Done(run: Run) | Break(state: LoopState) | Next(state: LoopState)

  /** Facts about the loop variables that hold at every iteration. */
  predicate Inv(s: LoopState, n: nat) {
    s.retryCount >= -1
    && ValidMap(s.retryIndex, n)
    && (s.slots.Some? <==> s.retryIndex.Some?)
    && (s.slots.Some? ==> |s.slots.value| == n)
  }

  function Initial(records: seq<Record>): (s: LoopState)
    ensures Inv(s, |records|)
  {
    LoopState(-1, 0, 0, None, None, None, records, [])
  }

  /** The events before the submission of round rc: the lock at the first retry,
      the interval reset when the previous round did not fail entirely, the back-off. */
  function Prelude(rc: int, previous: Option<PutRecordsResult>, currentFailed: int): seq<Event> {
    if rc > 0 then
      (if rc == 1 then [Lock] else [])
      + (if previous.Some? && currentFailed != |previous.value.records| then [ResetInterval] else [])
      + [BackOff]
    else []
  }

  function Release(retryCount: int): seq<Event> {
    if retryCount > 0 then [Unlock] else []
  }

  /** The entries of a reply fit the index map (or, in round 0, the result array). */
  predicate Fits(idx: Option<seq<nat>>, k: nat, n: nat) {
    if idx.None? then k <= n else k <= |idx.value|
  }

  /** One iteration of the do/while loop, starting with `retryCount++`. */
  function Round(records: seq<Record>, retries: int, submit: Transport, retriable: Classifier, s: LoopState): (st: Step)
    requires Inv(s, |records|)
    ensures !st.Done? ==> Inv(st.state, |records|) && st.state.retryCount == s.retryCount + 1
    ensures st.Break? ==> s.slots.Some?
  {
    var rc := s.retryCount + 1;
    var trace := s.trace + Prelude(rc, s.previous, s.currentFailed) + [Submit(s.request)];
    match submit(rc, s.request)
    case Thrown(e) =>
      if s.slots.Some? then Break(s.(retryCount := rc, trace := trace))
      else Done(Run(Raised(e), trace + Release(rc)))
    case NullResult =>
      Next(s.(retryCount := rc, previous := None, trace := trace))
    case Result(res) => Absorb(records, retries, retriable, s, rc, trace, res)
  }

  /** The rest of round rc once the transport has returned `res`: return it as
      it is, throw, or fold its entries into the result array. */
  function Absorb(records: seq<Record>, retries: int, retriable: Classifier, s: LoopState, rc: int,
                  trace: seq<Event>, res: PutRecordsResult): (st: Step)
    requires Inv(s, |records|) && rc == s.retryCount + 1
    ensures !st.Done? ==> st.Next? && Inv(st.state, |records|) && st.state.retryCount == rc
  {
    var cf := res.failedRecordCount;
    var entries := res.records;
    if (s.slots.None? && cf == 0) || retries == 0 then Done(Run(Returned(res), trace + Release(rc)))
    else if cf < 0 then Done(Run(Raised(IllegalArgument), trace + Release(rc)))
    else if !Fits(s.retryIndex, |entries|, |records|) then Done(Run(Raised(IndexOutOfBounds), trace + Release(rc)))
    else
      var slots := if s.slots.Some? then s.slots.value else seq(|records|, _ => Unset);
      var k := |entries|;
      QueuedOrdered(s.retryIndex, |records|, entries, k, retriable);
      var q := Queued(s.retryIndex, entries, k, retriable);
      Next(LoopState(rc, cf, s.noRetry + Permanent(entries, k, retriable), Some(res),
                     Some(Overwrite(slots, s.retryIndex, entries, k)), Some(q),
                     (if cf > 0 then [] else s.request) + Pick(records, q), trace))
  }

  /** The loop condition. */
  predicate Continues(retries: int, s: LoopState) {
    (s.retryIndex.None? || |s.retryIndex.value| > 0) && s.retryCount < retries
  }

  /** After the loop: `finally` and the final result. Without any folded round
      every record counts as failed and no entries are set. */
  function Finish(records: seq<Record>, s: LoopState): Run
    requires Inv(s, |records|)
  {
    var result :=
      if s.retryIndex.None? then PutRecordsResult(|records|, [])
      else PutRecordsResult(|s.retryIndex.value| + s.noRetry, s.slots.value);
    Run(Returned(result), s.trace + Release(s.retryCount))
  }

  /** The loop from state s on. */
  function Iterate(records: seq<Record>, retries: int, submit: Transport, retriable: Classifier, s: LoopState): Run
    requires Inv(s, |records|)
    decreases retries - s.retryCount
  {
    match Round(records, retries, submit, retriable, s)
    case Done(run) => run
    case Break(t) => Finish(records, t)
    case Next(t) =>
      if Continues(retries, t) then Iterate(records, retries, submit, retriable, t) else Finish(records, t)
  }

  /** `innerPutRecordsWithRetry` as a function of the request, the configured
      number of retries, the transport and the retriable-code classifier. */
  function PutRecordsWithRetrySpec(records: seq<Record>, retries: int, submit: Transport, retriable: Classifier): Run {
    Iterate(records, retries, submit, retriable, Initial(records))
  }

  /** How `Iterate` goes on from one iteration to the next. */
  lemma IterateUnfolds(records: seq<Record>, retries: int, submit: Transport, retriable: Classifier, s: LoopState)
    requires Inv(s, |records|)
    ensures Round(records, retries, submit, retriable, s).Done? ==>
      Iterate(records, retries, submit, retriable, s) == Round(records, retries, submit, retriable, s).run
    ensures Round(records, retries, submit, retriable, s).Break? ==>
      Iterate(records, retries, submit, retriable, s) == Finish(records, Round(records, retries, submit, retriable, s).state)
    ensures Round(records, retries, submit, retriable, s).Next? && Continues(retries, Round(records, retries, submit, retriable, s).state) ==>
      Iterate(records, retries, submit, retriable, s) == Iterate(records, retries, submit, retriable, Round(records, retries, submit, retriable, s).state)
    ensures Round(records, retries, submit, retriable, s).Next? && !Continues(retries, Round(records, retries, submit, retriable, s).state) ==>
      Iterate(records, retries, submit, retriable, s) == Finish(records, Round(records, retries, submit, retriable, s).state)
  {
  }

  /** The `for` loop over a reply's entries: entry i goes to slot
      `OriginalIndex(idx, i)`, and a retriable one is queued and its original
      record appended to the next request. `fits` is false when an entry has no
      slot, which the source reports with an index-out-of-bounds exception. */
  method FoldEntries(entryList: array<ResultEntry>, idx: Option<seq<nat>>, entries: seq<ResultEntry>,
                     records: seq<Record>, retriable: Classifier, request: seq<Record>, noRetry: nat)
    returns (fits: bool, queued: seq<nat>, request': seq<Record>, noRetry': nat)
    requires entryList.Length == |records| && ValidMap(idx, |records|)
    modifies entryList
    ensures fits == Fits(idx, |entries|, |records|)
    ensures fits ==> entryList[..] == Overwrite(old(entryList[..]), idx, entries, |entries|)
                     && queued == Queued(idx, entries, |entries|, retriable)
                     && AllBelow(queued, |records|)
                     && request' == request + Pick(records, queued)
                     && noRetry' == noRetry + Permanent(entries, |entries|, retriable)
  {
    ghost var slots0 := entryList[..];
    queued, request', noRetry' := [], request, noRetry;
    var i := 0;
    while i < |entries|
      invariant i <= |entries| && Covers(idx, i) && (idx.None? ==> i <= |records|)
      invariant entryList[..] == Overwrite(slots0, idx, entries, i)
      invariant queued == Queued(idx, entries, i, retriable)
      invariant AllBelow(queued, |records|)
      invariant request' == request + Pick(records, queued)
      invariant noRetry' == noRetry + Permanent(entries, i, retriable)
    {
      var originalIndex: nat;
      if idx.None? {
        if i >= entryList.Length {
          return false, queued, request', noRetry';
        }
        originalIndex := i;
      } else {
        if i >= |idx.value| {
          return false, queued, request', noRetry';
        }
        originalIndex := idx.value[i];
      }
      var entry := entries[i];
      if HasError(entry) {
        if retriable(entry.errorCode) {
          PickSnoc(records, queued, originalIndex);
          queued := queued + [originalIndex];
          request' := request' + [records[originalIndex]];
        } else {
          noRetry' := noRetry' + 1;
        }
      }
      entryList[originalIndex] := entry;
      i := i + 1;
    }
    fits := true;
  }

  /** What happens before a retry: the lock and the back-off policy are created at
      the first retry, the interval is reset when the previous round did not fail
      entirely, and the next back-off is slept. */
  method BeforeRetry(retryCount: int, backOffCreated: bool, previous: Option<PutRecordsResult>, currentFailed: int,
                     trace: seq<Event>)
    returns (backOffCreated': bool, trace': seq<Event>)
    requires retryCount >= 0 && (backOffCreated <==> retryCount >= 2)
    ensures (backOffCreated' <==> retryCount >= 1) && trace' == trace + Prelude(retryCount, previous, currentFailed)
  {
    backOffCreated', trace' := backOffCreated, trace;
    if retryCount > 0 {
      if !backOffCreated' {
        trace' := trace' + [Lock];
        backOffCreated' := true;
      }
      if previous.Some? && currentFailed != |previous.value.records| {
        trace' := trace' + [ResetInterval];
      }
      trace' := trace' + [BackOff];
    }
  }

  /** `innerPutRecordsWithRetry`, step by step, with the result array updated in place. */
  method PutRecordsWithRetry(records: seq<Record>, retries: int, submit: Transport, retriable: Classifier)
    returns (outcome: Outcome, trace: seq<Event>)
    ensures Run(outcome, trace) == PutRecordsWithRetrySpec(records, retries, submit, retriable)
  {
    var putRecordsResult: Option<PutRecordsResult> := None;
    var entryList: array?<ResultEntry> := null;
    var retryIndex: Option<seq<nat>> := None;
    var request := records;
    var retryCount := -1;
    var currentFailed := 0;
    var noRetry: nat := 0;
    var backOffCreated := false;
    trace := [];
    while true
      invariant entryList != null ==> fresh(entryList) && entryList.Length == |records|
      invariant backOffCreated <==> retryCount >= 1
      invariant Inv(LoopState(retryCount, currentFailed, noRetry, putRecordsResult,
                              if entryList == null then None else Some(entryList[..]), retryIndex, request, trace), |records|)
      invariant Iterate(records, retries, submit, retriable,
                        LoopState(retryCount, currentFailed, noRetry, putRecordsResult,
                                  if entryList == null then None else Some(entryList[..]), retryIndex, request, trace))
             == PutRecordsWithRetrySpec(records, retries, submit, retriable)
      decreases retries - retryCount
    {
      ghost var s0 := LoopState(retryCount, currentFailed, noRetry, putRecordsResult,
                                if entryList == null then None else Some(entryList[..]), retryIndex, request, trace);
      retryCount := retryCount + 1;
      backOffCreated, trace := BeforeRetry(retryCount, backOffCreated, putRecordsResult, currentFailed, trace);
      trace := trace + [Submit(request)];
      assert trace == s0.trace + Prelude(retryCount, s0.previous, s0.currentFailed) + [Submit(s0.request)];
      IterateUnfolds(records, retries, submit, retriable, s0);
      var reply := submit(retryCount, request);
      if reply.Thrown? {
        if entryList != null {
          assert Round(records, retries, submit, retriable, s0) == Break(s0.(retryCount := retryCount, trace := trace));
          outcome, trace := Finalize(records, s0.(retryCount := retryCount, trace := trace),
                                     retryCount, retryIndex, noRetry, entryList, trace);
          return;
        }
        outcome := Raised(reply.error);
        trace := trace + Release(retryCount);
        return;
      }
      if reply.NullResult? {
        putRecordsResult := None;
        assert Round(records, retries, submit, retriable, s0) == Next(s0.(retryCount := retryCount, previous := None, trace := trace));
      } else {
        var res := reply.result;
        var done, returned, entryList', retryIndex', request', noRetry' :=
          HandleResult(records, retries, retriable, s0, retryCount, trace, res, entryList, retryIndex, request, noRetry);
        if done {
          outcome := returned;
          trace := trace + Release(retryCount);
          return;
        }
        putRecordsResult, currentFailed := Some(res), res.failedRecordCount;
        entryList, retryIndex, request, noRetry := entryList', retryIndex', request', noRetry';
      }
      if !((retryIndex.None? || |retryIndex.value| > 0) && retryCount < retries) {
        outcome, trace := Finalize(records, LoopState(retryCount, currentFailed, noRetry, putRecordsResult,
                                     if entryList == null then None else Some(entryList[..]), retryIndex, request, trace),
                                   retryCount, retryIndex, noRetry, entryList, trace);
        return;
      }
    }
  }

  /** The handling of a result the transport returned: the early return, the
      allocation of the result array in the first folded round, and the fold.
      `done` is set when the method returns or throws here. */
  method HandleResult(records: seq<Record>, retries: int, retriable: Classifier, ghost s: LoopState, retryCount: int,
                      ghost trace: seq<Event>, res: PutRecordsResult, entryList: array?<ResultEntry>,
                      retryIndex: Option<seq<nat>>, request: seq<Record>, noRetry: nat)
    returns (done: bool, outcome: Outcome, entryList': array?<ResultEntry>, retryIndex': Option<seq<nat>>,
             request': seq<Record>, noRetry': nat)
    requires Inv(s, |records|) && retryCount == s.retryCount + 1
    requires s.slots == (if entryList == null then None else Some(entryList[..]))
    requires s.retryIndex == retryIndex && s.request == request && s.noRetry == noRetry
    modifies entryList
    ensures done ==> Absorb(records, retries, retriable, s, retryCount, trace, res) == Done(Run(outcome, trace + Release(retryCount)))
    ensures !done ==> (entryList' != null && (entryList' == entryList || fresh(entryList'))
      && Absorb(records, retries, retriable, s, retryCount, trace, res)
         == Next(LoopState(retryCount, res.failedRecordCount, noRetry', Some(res), Some(entryList'[..]), retryIndex', request', trace)))
  {
    var currentFailed := res.failedRecordCount;
    entryList', retryIndex', request', noRetry' := entryList, retryIndex, request, noRetry;
    if (entryList == null && currentFailed == 0) || retries == 0 {
      return true, Returned(res), entryList', retryIndex', request', noRetry';
    }
    if entryList == null {
      entryList' := new ResultEntry[|records|](_ => Unset);
      assert entryList'[..] == seq(|records|, _ => Unset);
    }
    if currentFailed < 0 {
      return true, Raised(IllegalArgument), entryList', retryIndex', request', noRetry';
    }
    var fits, retryIndexTemp;
    fits, retryIndexTemp, request', noRetry' :=
      FoldEntries(entryList', retryIndex, res.records, records, retriable,
                  if currentFailed > 0 then [] else request, noRetry);
    if !fits {
      return true, Raised(IndexOutOfBounds), entryList', retryIndex', request', noRetry';
    }
    retryIndex' := Some(retryIndexTemp);
    done, outcome := false, Returned(res);
  }

  /** The code after the loop: the `finally` block and the final result. */
  method Finalize(records: seq<Record>, ghost s: LoopState, retryCount: int, retryIndex: Option<seq<nat>>, noRetry: nat,
                  entryList: array?<ResultEntry>, trace: seq<Event>)
    returns (outcome: Outcome, trace': seq<Event>)
    requires Inv(s, |records|)
    requires s.retryCount == retryCount && s.retryIndex == retryIndex && s.noRetry == noRetry && s.trace == trace
    requires s.slots == if entryList == null then None else Some(entryList[..])
    ensures Run(outcome, trace') == Finish(records, s)
  {
    trace' := trace + Release(retryCount);
    if retryIndex.None? {
      outcome := Returned(PutRecordsResult(|records|, []));
    } else {
      outcome := Returned(PutRecordsResult(|retryIndex.value| + noRetry, entryList[..]));
    }
  }
}
