/** What the asynchronous retry future promises: each round is folded at most
    once and advanced from at most once, whatever order the callbacks and the
    steps of `get()` arrive in; the first merged result stays the base; a round
    queues exactly its retriable failures and overwrites its base slots; and the
    behaviour of the callbacks and of `get()` on exceptions. */
module AsyncProperties {
  import opened PutRecords
  import opened RetryFold
  import opened DISClientAsync2

  /** One thing that can happen to the future: a callback for some round, or
      one pass of `get()` with what the future of round `retryCount` gave; a
      failed pass also names the round its `get()` was entered at. */
  datatype Call =
    | CallbackSuccess(round: nat, result: ServiceResult, lockAcquired: bool)
    | CallbackError(round: nat, error: Exception)
    | GetPass(result: ServiceResult)
    | GetFailure(entry: nat, error: Exception)

  /** The state after one call. A round that was never submitted has no
      callback, so a callback naming one leaves the state as it is. */
  function Step(c: Config, s: FutureState, call: Call): FutureState {
    match call
    case CallbackSuccess(r, result, lockAcquired) =>
      if r > s.retryCount then s else OnSuccessSpec(c, s, r, result, lockAcquired).state
    case CallbackError(r, e) =>
      if r > s.retryCount then s else OnErrorSpec(s, r, e).state
    case GetPass(result) =>
      MergeRetryHandleSpec(c, s, result, false, true, s.retryCount).state
    case GetFailure(entry, _) =>
      if entry == 0 then MergeExceptionSpec(s, 0).state else s
  }

  /** The state after a sequence of calls, one after another. */
  function Replay(c: Config, s: FutureState, calls: seq<Call>): FutureState
    decreases |calls|
  {
    if calls == [] then s else Replay(c, Step(c, s, calls[0]), calls[1..])
  }

  /** A fold keeps a base result from then on, of the length of the first result merged. */
  lemma MergeKeepsBase(c: Config, s: FutureState, result: ServiceResult, r: nat)
    ensures MergeResultSpec(c, s, result, r).state.base.Some?
    ensures s.base.Some? ==>
      |MergeResultSpec(c, s, result, r).state.base.value.records| == |s.base.value.records|
    ensures s.base.None? ==>
      |MergeResultSpec(c, s, result, r).state.base.value.records| == |result.records|
    ensures s.base.None? && r == 0 ==> MergeResultSpec(c, s, result, r).state.base == Some(result)
  {
  }

  /** A merge that folds keeps the base, once there is one, at the same length. */
  lemma HandleKeepsBase(c: Config, s: FutureState, result: ServiceResult, tryLock: bool, lockAcquired: bool, r: nat)
    requires s.base.Some?
    ensures MergeRetryHandleSpec(c, s, result, tryLock, lockAcquired, r).state.base.Some?
    ensures |MergeRetryHandleSpec(c, s, result, tryLock, lockAcquired, r).state.base.value.records|
         == |s.base.value.records|
  {
    if s.retryMergeIndex == r - 1 {
      MergeKeepsBase(c, s.(retryMergeIndex := r), result, r);
    }
  }

  /** The state `onSuccess` leaves: that of the merge, followed by
      `mergeException` when the fold failed. */
  lemma OnSuccessState(c: Config, s: FutureState, r: nat, result: ServiceResult, lockAcquired: bool)
    ensures OnSuccessSpec(c, s, r, result, lockAcquired).state
         == (var h := MergeRetryHandleSpec(c, s, result, true, lockAcquired, r);
             if h.merged.Threw? then MergeExceptionSpec(h.state, r).state else h.state)
  {
  }

  /** The callback's `onSuccess` for a submitted round keeps the invariant,
      never moves the round back, and keeps the base. */
  lemma OnSuccessKeepsGood(c: Config, s: FutureState, r: nat, result: ServiceResult, lockAcquired: bool)
    requires Good(c, s) && r <= s.retryCount
    ensures Good(c, OnSuccessSpec(c, s, r, result, lockAcquired).state)
    ensures OnSuccessSpec(c, s, r, result, lockAcquired).state.retryCount >= s.retryCount
    ensures s.base.Some? ==> (OnSuccessSpec(c, s, r, result, lockAcquired).state.base.Some?
      && |OnSuccessSpec(c, s, r, result, lockAcquired).state.base.value.records| == |s.base.value.records|)
  {
    OnSuccessState(c, s, r, result, lockAcquired);
    HandleKeepsGood(c, s, result, true, lockAcquired, r);
    var h := MergeRetryHandleSpec(c, s, result, true, lockAcquired, r);
    if s.base.Some? {
      HandleKeepsBase(c, s, result, true, lockAcquired, r);
    }
    if h.merged.Threw? {
      ExceptionKeepsGood(c, h.state, r);
    }
  }

  /** One call keeps the reachable-state invariant, never moves `retryCount`
      back, and keeps the base once there is one, at the same length. */
  lemma StepKeepsGood(c: Config, s: FutureState, call: Call)
    requires Good(c, s)
    ensures Good(c, Step(c, s, call))
    ensures Step(c, s, call).retryCount >= s.retryCount
    ensures s.base.Some? ==> (Step(c, s, call).base.Some?
      && |Step(c, s, call).base.value.records| == |s.base.value.records|)
  {
    match call
    case CallbackSuccess(r, result, lockAcquired) =>
      if r <= s.retryCount {
        OnSuccessKeepsGood(c, s, r, result, lockAcquired);
      }
    case CallbackError(r, e) =>
      if r <= s.retryCount {
        ExceptionKeepsGood(c, s, r);
      }
    case GetPass(result) =>
      HandleKeepsGood(c, s, result, false, true, s.retryCount);
      if s.base.Some? {
        HandleKeepsBase(c, s, result, false, true, s.retryCount);
      }
    case GetFailure(entry, _) =>
      if entry == 0 {
        ExceptionKeepsGood(c, s, 0);
      }
  }

  lemma {:induction false} ReplayKeepsGood(c: Config, s: FutureState, calls: seq<Call>)
    requires Good(c, s)
    ensures Good(c, Replay(c, s, calls))
    ensures Replay(c, s, calls).retryCount >= s.retryCount
    ensures s.base.Some? ==> (Replay(c, s, calls).base.Some?
      && |Replay(c, s, calls).base.value.records| == |s.base.value.records|)
    decreases |calls|
  {
    if calls != [] {
      StepKeepsGood(c, s, calls[0]);
      ReplayKeepsGood(c, Step(c, s, calls[0]), calls[1..]);
    }
  }

  /** Whatever calls arrive, in whatever order and however often: the rounds
      folded form a strictly increasing sequence, so no round is folded twice;
      the k-th advance is from round k, so no round is advanced from twice; and
      exactly one batch has been submitted per advance, besides round 0. */
  lemma AtMostOnce(c: Config, calls: seq<Call>)
    ensures Increasing(Replay(c, Start(c), calls).folded) && Replay(c, Start(c), calls).retryMergeIndex >= -1
    ensures AllBelow(Replay(c, Start(c), calls).folded, Replay(c, Start(c), calls).retryMergeIndex + 1)
    ensures |Replay(c, Start(c), calls).advanced| == Replay(c, Start(c), calls).retryCount
    ensures forall j :: 0 <= j < |Replay(c, Start(c), calls).advanced| ==>
      Replay(c, Start(c), calls).advanced[j] == j
    ensures |Replay(c, Start(c), calls).issued| == |Replay(c, Start(c), calls).advanced| + 1
    ensures Replay(c, Start(c), calls).issued[0] == c.records
  {
    ReplayKeepsGood(c, Start(c), calls);
  }

  /** Once a result has been merged, later calls never drop the base nor
      change its length. */
  lemma BaseNeverReplaced(c: Config, s: FutureState, calls: seq<Call>)
    requires Good(c, s) && s.base.Some?
    ensures Replay(c, s, calls).base.Some?
    ensures |Replay(c, s, calls).base.value.records| == |s.base.value.records|
  {
    ReplayKeepsGood(c, s, calls);
  }

  /** Round 0 without failures, or `recordsRetries == 0`: the fold finishes the
      future and collects nothing, and the caller gets the base result back
      without any submission. */
  lemma EarlyFinish(c: Config, s: FutureState, result: ServiceResult, tryLock: bool, lockAcquired: bool, r: nat)
    requires s.retryMergeIndex == r - 1
    requires (r == 0 && result.failedRecordCount == 0) || c.retries == 0
    ensures MergeResultSpec(c, s.(retryMergeIndex := r), result, r).positions == []
    ensures MergeResultSpec(c, s.(retryMergeIndex := r), result, r).batch == []
    ensures MergeRetryHandleSpec(c, s, result, tryLock, lockAcquired, r).state.finished
    ensures MergeRetryHandleSpec(c, s, result, tryLock, lockAcquired, r).merged
         == Newest(if s.base.None? then result else s.base.value)
    ensures MergeRetryHandleSpec(c, s, result, tryLock, lockAcquired, r).state.retryCount == s.retryCount
    ensures MergeRetryHandleSpec(c, s, result, tryLock, lockAcquired, r).state.issued == s.issued
  {
  }

  /** A round that folds completely queues exactly the original positions of
      its entries with a retriable error, in round order, and only while the
      round is below `recordsRetries`. */
  lemma FoldQueuesRetriable(c: Config, idx: Option<seq<nat>>, entries: seq<ResultEntry>, canRetry: bool,
                            slots0: seq<ResultEntry>, r: nat)
    ensures !FoldRoundSpec(c, idx, entries, canRetry, slots0, r).fault ==> Covers(idx, |entries|)
    ensures !canRetry ==> FoldRoundSpec(c, idx, entries, canRetry, slots0, r).positions == []
    ensures !FoldRoundSpec(c, idx, entries, canRetry, slots0, r).fault && canRetry ==>
      |FoldRoundSpec(c, idx, entries, canRetry, slots0, r).positions|
        == |Queued(None, entries, |entries|, c.retriable)|
      && forall j :: 0 <= j < |Queued(None, entries, |entries|, c.retriable)| ==>
           Queued(None, entries, |entries|, c.retriable)[j] < |entries|
           && RetriableError(entries[Queued(None, entries, |entries|, c.retriable)[j]], c.retriable)
           && FoldRoundSpec(c, idx, entries, canRetry, slots0, r).positions[j]
              == OriginalIndex(idx, Queued(None, entries, |entries|, c.retriable)[j])
    ensures !FoldRoundSpec(c, idx, entries, canRetry, slots0, r).fault && canRetry ==>
      forall i :: 0 <= i < |entries| && RetriableError(entries[i], c.retriable) ==>
        OriginalIndex(idx, i) in FoldRoundSpec(c, idx, entries, canRetry, slots0, r).positions
  {
    var k := FoldLimit(c, idx, entries, canRetry, |slots0|, r, 0);
    if k == |entries| && canRetry {
      QueuedSound(idx, entries, k, c.retriable);
      QueuedComplete(idx, entries, k, c.retriable);
    }
  }

  /** After round 0, a round that folds completely writes entry i over base
      slot `retryRecordIndex[i]`, leaves every other slot alone, and counts the
      entries without an error code. */
  lemma FoldOverwritesSlots(c: Config, idx: Option<seq<nat>>, entries: seq<ResultEntry>, canRetry: bool,
                            slots0: seq<ResultEntry>, r: nat)
    requires r != 0 && ValidMap(idx, |slots0|)
    ensures !FoldRoundSpec(c, idx, entries, canRetry, slots0, r).fault ==>
      Covers(idx, |entries|)
      && (forall i :: 0 <= i < |entries| ==>
            OriginalIndex(idx, i) < |slots0|
            && FoldRoundSpec(c, idx, entries, canRetry, slots0, r).slots[OriginalIndex(idx, i)] == entries[i])
      && (forall j :: 0 <= j < |slots0| && (forall i :: 0 <= i < |entries| ==> OriginalIndex(idx, i) != j) ==>
            FoldRoundSpec(c, idx, entries, canRetry, slots0, r).slots[j] == slots0[j])
      && FoldRoundSpec(c, idx, entries, canRetry, slots0, r).successes == |entries| - CountErrors(entries)
  {
    var k := FoldLimit(c, idx, entries, canRetry, |slots0|, r, 0);
    if k == |entries| {
      SlotsWithin(c, idx, entries, canRetry, |slots0|, r, k);
      OverwriteFacts(slots0, idx, entries, k);
      QueuedPlusPermanent(None, entries, k, c.retriable);
      assert entries[..k] == entries;
    }
  }

  /** After round 0 the base failed count drops by exactly the number of the
      round's entries without an error code. */
  lemma FailedCountDrops(c: Config, s: FutureState, result: ServiceResult, r: nat)
    requires r != 0 && s.base.Some?
    requires ValidMap(s.retryRecordIndex, |s.base.value.records|)
    requires !((r == 0 && result.failedRecordCount == 0) || c.retries == 0)
    ensures !MergeResultSpec(c, s, result, r).fault ==>
      MergeResultSpec(c, s, result, r).state.base.value.failedRecordCount
        == s.base.value.failedRecordCount - (|result.records| - CountErrors(result.records))
  {
    FoldOverwritesSlots(c, s.retryRecordIndex, result.records, r < c.retries, s.base.value.records, r);
  }

  /** A finished future only hands back its base result (or `null` without
      one), or the exception of a fold; it submits nothing more. */
  lemma FinishedHandsBackBase(c: Config, s: FutureState, result: ServiceResult, tryLock: bool, lockAcquired: bool, r: nat)
    requires s.finished
    ensures MergeRetryHandleSpec(c, s, result, tryLock, lockAcquired, r).state.finished
    ensures MergeRetryHandleSpec(c, s, result, tryLock, lockAcquired, r).state.retryCount == s.retryCount
    ensures MergeRetryHandleSpec(c, s, result, tryLock, lockAcquired, r).state.issued == s.issued
    ensures MergeRetryHandleSpec(c, s, result, tryLock, lockAcquired, r).state.retryRecordIndex == s.retryRecordIndex
    ensures MergeRetryHandleSpec(c, s, result, tryLock, lockAcquired, r).merged.Threw?
         || MergeRetryHandleSpec(c, s, result, tryLock, lockAcquired, r).merged
            == (if MergeRetryHandleSpec(c, s, result, tryLock, lockAcquired, r).state.base.Some?
                then Newest(MergeRetryHandleSpec(c, s, result, tryLock, lockAcquired, r).state.base.value)
                else Null)
  {
    if s.retryMergeIndex == r - 1 {
      MergeResultShape(c, s.(retryMergeIndex := r), result, r);
    }
  }

  /** Only the caller that holds round `retryCount` and the lock advances: it
      installs the positions its own fold collected (none if it folded
      nothing) as the index map and submits exactly their records. A stale
      caller, or a callback that misses the lock, changes neither the round nor
      the submissions and gets `null` unless the future is finished or the
      fold failed. */
  lemma OnlyCurrentRoundAdvances(c: Config, s: FutureState, result: ServiceResult, tryLock: bool, lockAcquired: bool, r: nat)
    ensures MergeRetryHandleSpec(c, s, result, tryLock, lockAcquired, r).state.retryCount != s.retryCount ==>
      r == s.retryCount && !(tryLock && !lockAcquired)
      && MergeRetryHandleSpec(c, s, result, tryLock, lockAcquired, r).merged == Null
      && MergeRetryHandleSpec(c, s, result, tryLock, lockAcquired, r).state.retryCount == s.retryCount + 1
      && (var p := if s.retryMergeIndex == r - 1 then MergeResultSpec(c, s.(retryMergeIndex := r), result, r).positions
                   else [];
          MergeRetryHandleSpec(c, s, result, tryLock, lockAcquired, r).state.retryRecordIndex == Some(p)
          && MergeRetryHandleSpec(c, s, result, tryLock, lockAcquired, r).state.issued
             == s.issued + [Pick(c.records, p)])
    ensures r != s.retryCount || (tryLock && !lockAcquired) ==>
      MergeRetryHandleSpec(c, s, result, tryLock, lockAcquired, r).state.retryCount == s.retryCount
      && MergeRetryHandleSpec(c, s, result, tryLock, lockAcquired, r).state.issued == s.issued
      && MergeRetryHandleSpec(c, s, result, tryLock, lockAcquired, r).state.retryRecordIndex == s.retryRecordIndex
      && (MergeRetryHandleSpec(c, s, result, tryLock, lockAcquired, r).state.finished
          || MergeRetryHandleSpec(c, s, result, tryLock, lockAcquired, r).merged.Threw?
          || MergeRetryHandleSpec(c, s, result, tryLock, lockAcquired, r).merged == Null)
  {
    if s.retryMergeIndex == r - 1 {
      MergeResultShape(c, s.(retryMergeIndex := r), result, r);
    }
  }

  /** A callback whose round's fold collects records to retry but which misses
      the lock loses them: the next `get()` pass for that round folds nothing,
      yet advances, installs an empty index map and submits an empty batch. */
  lemma LockMissDropsRetryBatch(c: Config, s: FutureState, result: ServiceResult, next: ServiceResult)
    requires Good(c, s) && s.retryMergeIndex == s.retryCount - 1
    requires !MergeResultSpec(c, s.(retryMergeIndex := s.retryCount), result, s.retryCount).fault
    requires !MergeResultSpec(c, s.(retryMergeIndex := s.retryCount), result, s.retryCount).state.finished
    ensures MergeResultSpec(c, s.(retryMergeIndex := s.retryCount), result, s.retryCount).batch != []
    ensures OnSuccessSpec(c, s, s.retryCount, result, false).call == NoCall
    ensures OnSuccessSpec(c, s, s.retryCount, result, false).state.retryCount == s.retryCount
    ensures (var t := OnSuccessSpec(c, s, s.retryCount, result, false).state;
             MergeRetryHandleSpec(c, t, next, false, true, t.retryCount).merged == Null
             && MergeRetryHandleSpec(c, t, next, false, true, t.retryCount).state.retryRecordIndex == Some([])
             && MergeRetryHandleSpec(c, t, next, false, true, t.retryCount).state.issued == t.issued + [[]])
  {
    MergeResultFacts(c, s.(retryMergeIndex := s.retryCount), result, s.retryCount);
  }

  /** The callback's `onSuccess` hands the user's handler the round's own
      result whenever the merge hands back the base result, and the base keeps
      the length of the first result merged, so after round 0 the two differ
      whenever the round resubmitted fewer records than the first. */
  lemma OnSuccessPassesRoundResult(c: Config, s: FutureState, r: nat, result: ServiceResult, lockAcquired: bool)
    requires s.base.Some?
    ensures MergeRetryHandleSpec(c, s, result, true, lockAcquired, r).merged.Newest? ==>
      OnSuccessSpec(c, s, r, result, lockAcquired).call == UserSuccess(result)
      && MergeRetryHandleSpec(c, s, result, true, lockAcquired, r).merged.result
         == MergeRetryHandleSpec(c, s, result, true, lockAcquired, r).state.base.value
      && |MergeRetryHandleSpec(c, s, result, true, lockAcquired, r).merged.result.records|
         == |s.base.value.records|
  {
    if s.retryMergeIndex == r - 1 {
      MergeKeepsBase(c, s.(retryMergeIndex := r), result, r);
    }
  }

  /** `mergeException` moves the merge gate only from r - 1, finishes the
      future, hands back the base result and changes nothing else; the
      callback reports the exception exactly when there is no base. */
  lemma ExceptionFinishes(c: Config, s: FutureState, r: nat, e: Exception)
    ensures MergeExceptionSpec(s, r).state
         == s.(retryMergeIndex := if s.retryMergeIndex == r - 1 then r else s.retryMergeIndex, finished := true)
    ensures MergeExceptionSpec(s, r).newest == s.base
    ensures OnErrorSpec(s, r, e).call == UserError(e) <==> s.base.None?
    ensures s.base.Some? ==> OnErrorSpec(s, r, e).call == UserSuccess(s.base.value)
  {
  }

  /** The state of the pass at which `get()` meets a failed future, if its
      passes end that way. */
  ghost function FailingPass(c: Config, s: FutureState, replies: nat -> AsyncReply): Option<FutureState>
    requires Good(c, s)
    decreases Measure(c, s)
  {
    match replies(s.retryCount)
    case Failed(_) => Some(s)
    case Completed(res) =>
      var h := MergeRetryHandleSpec(c, s, res, false, true, s.retryCount);
      if !h.merged.Null? then None
      else
        HandleKeepsGood(c, s, res, false, true, s.retryCount);
        GetStepAdvances(c, s, res);
        if h.state.retryCount == s.retryCount then None else FailingPass(c, h.state, replies)
  }

  /** A failed future met by `get()`, at whatever pass: a `get()` entered at
      round 0 finishes the future and turns the failure into the base result
      when there is one, and rethrows it otherwise; a `get()` entered at a later
      round rethrows it and leaves the state of that pass as it is. The round
      `get()` was entered at matters only when a future fails. */
  lemma {:induction false} GetConvertsOnlyRoundZero(c: Config, s: FutureState, replies: nat -> AsyncReply, entry: nat)
    requires Good(c, s)
    ensures FailingPass(c, s, replies).Some? ==>
      var t := FailingPass(c, s, replies).value;
      Good(c, t) && t.retryCount >= s.retryCount && replies(t.retryCount).Failed?
      && (entry == 0 && t.base.Some? ==>
            GetPasses(c, s, replies, entry) == Got(t.(finished := true, retryMergeIndex := if t.retryMergeIndex == -1 then 0 else t.retryMergeIndex),
                                                   Delivers(t.base.value)))
      && (entry == 0 && t.base.None? ==>
            GetPasses(c, s, replies, entry) == Got(t.(finished := true, retryMergeIndex := if t.retryMergeIndex == -1 then 0 else t.retryMergeIndex),
                                                   Throws(replies(t.retryCount).error)))
      && (entry != 0 ==> GetPasses(c, s, replies, entry) == Got(t, Throws(replies(t.retryCount).error)))
    ensures FailingPass(c, s, replies).None? ==>
      forall other: nat :: GetPasses(c, s, replies, other) == GetPasses(c, s, replies, entry)
    decreases Measure(c, s)
  {
    match replies(s.retryCount)
    case Failed(e) =>
    case Completed(res) =>
      var h := MergeRetryHandleSpec(c, s, res, false, true, s.retryCount);
      if h.merged.Null? {
        HandleKeepsGood(c, s, res, false, true, s.retryCount);
        GetStepAdvances(c, s, res);
        if h.state.retryCount != s.retryCount {
          GetConvertsOnlyRoundZero(c, h.state, replies, entry);
        }
      }
  }

  /** A `get()` made right after `putRecordsAsync` on one record: round 0
      answers with a retriable error, so `get()` submits round 1, whose future
      fails. The enclosing call, entered at round 0, finishes the future and
      hands back round 0's result. */
  lemma LaterFailureDeliversBase(c: Config, replies: nat -> AsyncReply, entry: ResultEntry, e: Exception)
    requires |c.records| == 1 && c.retries >= 1
    requires HasError(entry) && c.retriable(entry.errorCode)
    requires replies(0) == Completed(PutRecordsResult(1, [entry])) && replies(1) == Failed(e)
    ensures GetSpec(c, Start(c), replies).outcome == Delivers(PutRecordsResult(1, [entry]))
    ensures GetSpec(c, Start(c), replies).state.finished && GetSpec(c, Start(c), replies).state.retryCount == 1
    ensures GetSpec(c, Start(c), replies).state.issued == [c.records, c.records]
  {
    var s := Start(c);
    var first := PutRecordsResult(1, [entry]);
    assert FoldsAt(c, None, first.records, true, 1, 0, 0);
    assert FoldLimit(c, None, first.records, true, 1, 0, 0) == 1 by {
      FoldLimitAt(c, None, first.records, true, 1, 0, 1);
    }
    assert Queued(None, first.records, 1, c.retriable) == [0];
    var f := MergeResultSpec(c, s.(retryMergeIndex := 0), first, 0);
    assert !f.fault && f.positions == [0] && f.batch == c.records && !f.state.finished;
    assert f.state.base == Some(first);
    var h := MergeRetryHandleSpec(c, s, first, false, true, 0);
    assert h.merged == Null && h.state.retryCount == 1 && h.state.issued == [c.records, c.records];
    assert GetSpec(c, s, replies) == GetPasses(c, h.state, replies, 0);
  }

  /** What `get()` returns is the base result of a finished future; it calls
      itself without end only on a finished future that has no base; and it
      never moves the round back. */
  lemma {:induction false} GetDeliversBase(c: Config, s: FutureState, replies: nat -> AsyncReply, entry: nat)
    requires Good(c, s)
    ensures Good(c, GetPasses(c, s, replies, entry).state)
    ensures GetPasses(c, s, replies, entry).state.retryCount >= s.retryCount
    ensures GetPasses(c, s, replies, entry).outcome.Delivers? ==>
      GetPasses(c, s, replies, entry).state.finished
      && GetPasses(c, s, replies, entry).state.base == Some(GetPasses(c, s, replies, entry).outcome.result)
    ensures GetPasses(c, s, replies, entry).outcome.RecursesForever? ==>
      GetPasses(c, s, replies, entry).state.finished && GetPasses(c, s, replies, entry).state.base.None?
    decreases Measure(c, s)
  {
    match replies(s.retryCount)
    case Failed(e) =>
      if entry == 0 {
        ExceptionKeepsGood(c, s, 0);
      }
    case Completed(res) =>
      var h := MergeRetryHandleSpec(c, s, res, false, true, s.retryCount);
      HandleKeepsGood(c, s, res, false, true, s.retryCount);
      if h.merged.Null? {
        GetStepAdvances(c, s, res);
        if h.state.retryCount != s.retryCount {
          GetDeliversBase(c, h.state, replies, entry);
        }
      }
  }
}
