/** `innerPutRecordsSupportingCache`: with the local data cache enabled, the
    records the retry loop could not deliver replace the request's records and
    are put into the cache; a call that fails for any reason other than an HTTP
    client error puts the whole request into the cache and fails the same way. */
module SupportingCache {
  import opened PutRecords
  import opened RetryFold
  import opened DISClient
  import opened RetryProperties

  /** The caller's request object; the cache path replaces its records. */
  class PutRecordsRequest {
    var records: seq<Record>

    constructor (records: seq<Record>)
      ensures this.records == records
    {
      this.records := records;
    }
  }

  /** A classifier that accepts every error code: the positions it queues are
      those of all failed entries. */
  const AnyCode: Classifier := _ => true

  /** Positions, in order, of the first k entries that carry an error code. */
  function ErrorPositions(entries: seq<ResultEntry>, k: nat): seq<nat>
    requires k <= |entries|
  {
    Queued(None, entries, k, AnyCode)
  }

  lemma {:induction false} NothingPermanent(entries: seq<ResultEntry>, k: nat)
    requires k <= |entries|
    ensures Permanent(entries, k, AnyCode) == 0
  {
    if k > 0 {
      NothingPermanent(entries, k - 1);
    }
  }

  /** The positions are exactly those of the failed entries, each once and in order. */
  lemma ErrorPositionsFacts(entries: seq<ResultEntry>, k: nat)
    requires k <= |entries|
    ensures Increasing(ErrorPositions(entries, k))
    ensures forall j :: 0 <= j < |ErrorPositions(entries, k)| ==>
      ErrorPositions(entries, k)[j] < k && HasError(entries[ErrorPositions(entries, k)[j]])
    ensures forall i :: 0 <= i < k && HasError(entries[i]) ==> i in ErrorPositions(entries, k)
    ensures |ErrorPositions(entries, k)| == CountErrors(entries[..k])
  {
    QueuedFacts(None, k, entries, k, AnyCode);
    QueuedPlusPermanent(None, entries, k, AnyCode);
    NothingPermanent(entries, k);
  }

  /** Every failed entry stands for a record of the request, so the copy loop
      finds each of them. */
  predicate ErrorsWithin(entries: seq<ResultEntry>, n: nat) {
    forall i :: 0 <= i < |entries| && HasError(entries[i]) ==> i < n
  }

  /** The records of the request whose entries carry an error code, in order. */
  function FailedRecords(records: seq<Record>, entries: seq<ResultEntry>): seq<Record>
    requires ErrorsWithin(entries, |records|)
  {
    ErrorPositionsFacts(entries, |entries|);
    Pick(records, ErrorPositions(entries, |entries|))
  }

  /** The copy loop reads entry i without failing: it is not `null` (whose
      `getErrorCode()` would throw), and a failed one has a record of the
      request at its position. */
  predicate CopiesAt(entries: seq<ResultEntry>, n: nat, i: nat)
    requires i < |entries|
  {
    entries[i].ResultEntry? && (HasError(entries[i]) ==> i < n)
  }

  /** The first entry, from i on, that the copy loop fails on; |entries| when none. */
  function CopyLimit(entries: seq<ResultEntry>, n: nat, i: nat): (k: nat)
    requires i <= |entries|
    ensures i <= k <= |entries|
    ensures forall j :: i <= j < k ==> CopiesAt(entries, n, j)
    ensures k < |entries| ==> !CopiesAt(entries, n, k)
    decreases |entries| - i
  {
    if i == |entries| || !CopiesAt(entries, n, i) then i else CopyLimit(entries, n, i + 1)
  }

  /** The copy loop stops exactly at the first entry it fails on. */
  lemma {:induction false} CopyLimitAt(entries: seq<ResultEntry>, n: nat, from: nat, i: nat)
    requires from <= i <= |entries|
    requires forall j :: from <= j < i ==> CopiesAt(entries, n, j)
    requires i < |entries| ==> !CopiesAt(entries, n, i)
    ensures CopyLimit(entries, n, from) == i
    decreases i - from
  {
    if from < i {
      CopyLimitAt(entries, n, from + 1, i);
    }
  }

  /** The copy loop runs to the end exactly when no entry is `null` and every
      failed entry has a record of the request at its position. */
  lemma CopyCompletes(entries: seq<ResultEntry>, n: nat)
    ensures CopyLimit(entries, n, 0) == |entries| <==> NoUnset(entries) && ErrorsWithin(entries, n)
  {
    var k := CopyLimit(entries, n, 0);
    if k == |entries| {
      forall i | 0 <= i < |entries|
        ensures entries[i].ResultEntry? && (HasError(entries[i]) ==> i < n)
      {
        assert CopiesAt(entries, n, i);
      }
    }
  }

  /** What a call leaves behind: its outcome, what it put into the cache (if
      anything), and the records the request then holds. */
  datatype Effect = Effect(outcome: Outcome, cached: Option<seq<Record>>, records: seq<Record>)

  /** The cache step applied to the outcome of the retry loop. A failure of the
      copy loop (a `null` entry, or a failed entry past the request's records)
      is caught like any other: the request, still unchanged, is cached and the
      exception rethrown. */
  function CacheFailures(records: seq<Record>, outcome: Outcome): Effect {
    match outcome
    case Raised(e) =>
      Effect(outcome, if e == TransportFault(true) then None else Some(records), records)
    case Returned(res) =>
      if res.failedRecordCount <= 0 then Effect(outcome, None, records)
      else
        var k := CopyLimit(res.records, |records|, 0);
        if k < |res.records| then
          Effect(Raised(if res.records[k].Unset? then NullPointer else IndexOutOfBounds), Some(records), records)
        else
          CopyCompletes(res.records, |records|);
          Effect(outcome, Some(FailedRecords(records, res.records)), FailedRecords(records, res.records))
  }

  function PutRecordsSupportingCacheSpec(cacheEnabled: bool, records: seq<Record>, retries: int,
                                         submit: Transport, retriable: Classifier): Effect
  {
    var run := PutRecordsWithRetrySpec(records, retries, submit, retriable);
    if cacheEnabled then CacheFailures(records, run.outcome) else Effect(run.outcome, None, records)
  }

  method PutRecordsSupportingCache(cacheEnabled: bool, request: PutRecordsRequest, retries: int,
                                   submit: Transport, retriable: Classifier)
    returns (outcome: Outcome, cached: Option<seq<Record>>)
    modifies request
    ensures Effect(outcome, cached, request.records)
         == PutRecordsSupportingCacheSpec(cacheEnabled, old(request.records), retries, submit, retriable)
  {
    var trace;
    cached := None;
    if !cacheEnabled {
      outcome, trace := PutRecordsWithRetry(request.records, retries, submit, retriable);
      return;
    }
    ghost var records := request.records;
    outcome, trace := PutRecordsWithRetry(request.records, retries, submit, retriable);
    match outcome {
      case Raised(e) =>
        if e != TransportFault(true) {
          cached := Some(request.records);
        }
      case Returned(res) =>
        if res.failedRecordCount > 0 {
          var entries := res.records;
          var failed: seq<Record> := [];
          var index := 0;
          while index < |entries|
            invariant 0 <= index <= |entries| && request.records == records
            invariant forall i :: 0 <= i < index ==> CopiesAt(entries, |records|, i)
            invariant AllBelow(ErrorPositions(entries, index), |records|)
            invariant failed == Pick(records, ErrorPositions(entries, index))
          {
            if entries[index].Unset? {
              // the null-pointer failure is caught: the request is cached unchanged
              CopyLimitAt(entries, |records|, 0, index);
              outcome := Raised(NullPointer);
              cached := Some(request.records);
              return;
            }
            if HasError(entries[index]) {
              if index >= |request.records| {
                // the index-out-of-bounds failure is caught: the request is cached unchanged
                CopyLimitAt(entries, |records|, 0, index);
                outcome := Raised(IndexOutOfBounds);
                cached := Some(request.records);
                return;
              }
              assert AnyCode(entries[index].errorCode);
              PickSnoc(records, ErrorPositions(entries, index), index);
              failed := failed + [request.records[index]];
            }
            index := index + 1;
          }
          CopyLimitAt(entries, |records|, 0, index);
          request.records := failed;
          cached := Some(failed);
        }
    }
  }

  /** What the cache receives on the success path: one record per failed entry,
      those records and no other, in the order of the request. */
  lemma CachedAreFailed(records: seq<Record>, entries: seq<ResultEntry>)
    requires ErrorsWithin(entries, |records|)
    ensures |FailedRecords(records, entries)| == CountErrors(entries)
    ensures IsSubsequence(FailedRecords(records, entries), records)
    ensures forall j :: 0 <= j < |ErrorPositions(entries, |entries|)| ==>
      ErrorPositions(entries, |entries|)[j] < |entries|
      && HasError(entries[ErrorPositions(entries, |entries|)[j]])
      && FailedRecords(records, entries)[j] == records[ErrorPositions(entries, |entries|)[j]]
    ensures forall i :: 0 <= i < |entries| && HasError(entries[i]) ==> i in ErrorPositions(entries, |entries|)
  {
    ErrorPositionsFacts(entries, |entries|);
    assert entries[..|entries|] == entries;
    PickIsSubsequence(records, ErrorPositions(entries, |entries|));
  }

  /** With a transport that answers one entry per record, the cache never
      changes how the call ends, and it receives exactly `failedRecordCount`
      records: the failed ones, which the request then holds. When no round
      returned a result the request is emptied and an empty batch is cached. */
  lemma CacheHoldsFailedRecords(records: seq<Record>, retries: int, submit: Transport, retriable: Classifier)
    requires HonoursLength(submit) && ConsistentCounts(submit)
    ensures PutRecordsSupportingCacheSpec(true, records, retries, submit, retriable).outcome
         == PutRecordsWithRetrySpec(records, retries, submit, retriable).outcome
    ensures (PutRecordsWithRetrySpec(records, retries, submit, retriable).outcome.Returned?
         && PutRecordsWithRetrySpec(records, retries, submit, retriable).outcome.result.failedRecordCount > 0) ==>
      PutRecordsSupportingCacheSpec(true, records, retries, submit, retriable).cached
        == Some(PutRecordsSupportingCacheSpec(true, records, retries, submit, retriable).records)
      && IsSubsequence(PutRecordsSupportingCacheSpec(true, records, retries, submit, retriable).records, records)
      && (PutRecordsWithRetrySpec(records, retries, submit, retriable).outcome.result.records == [] ==>
            PutRecordsSupportingCacheSpec(true, records, retries, submit, retriable).records == [])
      && (PutRecordsWithRetrySpec(records, retries, submit, retriable).outcome.result.records != [] ==>
            |PutRecordsSupportingCacheSpec(true, records, retries, submit, retriable).records|
            == PutRecordsWithRetrySpec(records, retries, submit, retriable).outcome.result.failedRecordCount)
  {
    var outcome := PutRecordsWithRetrySpec(records, retries, submit, retriable).outcome;
    FailedCountExact(records, retries, submit, retriable);
    if outcome.Returned? && outcome.result.failedRecordCount > 0 {
      var entries := outcome.result.records;
      assert ErrorsWithin(entries, |records|);
      CopyLimitAt(entries, |records|, 0, |entries|);
      CachedAreFailed(records, entries);
      if entries == [] {
        assert ErrorPositions(entries, 0) == [];
      }
    }
  }

  /** A returned result with failures whose list the copy loop cannot walk
      to the end: a `null` entry gives a null-pointer failure and a failed
      entry past the request's records an index failure, whichever comes
      first; either way the request is cached unchanged and the exception
      rethrown. */
  lemma CopyFaultCachesRequest(records: seq<Record>, res: PutRecordsResult)
    requires res.failedRecordCount > 0
    requires !(NoUnset(res.records) && ErrorsWithin(res.records, |records|))
    ensures CacheFailures(records, Returned(res)).outcome.Raised?
    ensures CacheFailures(records, Returned(res)).cached == Some(records)
    ensures CacheFailures(records, Returned(res)).records == records
    ensures ErrorsWithin(res.records, |records|) ==>
      CacheFailures(records, Returned(res)).outcome == Raised(NullPointer)
    ensures NoUnset(res.records) ==>
      CacheFailures(records, Returned(res)).outcome == Raised(IndexOutOfBounds)
  {
    CopyCompletes(res.records, |records|);
    var k := CopyLimit(res.records, |records|, 0);
    assert !CopiesAt(res.records, |records|, k);
  }

  /** A reply shorter than its batch leaves a `null` slot in the final result:
      two records, retries enabled, and round 0 answered with one entry that
      carries a permanent error. The retry loop returns that entry and a
      `null`; the copy loop then fails on the `null`, so the whole request is
      cached unchanged and the null-pointer failure is rethrown. */
  lemma ShortReplyCachesRequest(r0: Record, r1: Record, e0: ResultEntry, submit: Transport, retriable: Classifier)
    requires HasError(e0) && !retriable(e0.errorCode)
    requires submit(0, [r0, r1]) == Result(PutRecordsResult(1, [e0]))
    ensures PutRecordsWithRetrySpec([r0, r1], 1, submit, retriable).outcome
         == Returned(PutRecordsResult(1, [e0, Unset]))
    ensures PutRecordsSupportingCacheSpec(true, [r0, r1], 1, submit, retriable)
         == Effect(Raised(NullPointer), Some([r0, r1]), [r0, r1])
  {
    var records := [r0, r1];
    var s := Initial(records);
    var entries := [e0];
    assert Queued(None, entries, 1, retriable) == [];
    assert Permanent(entries, 1, retriable) == 1;
    assert Overwrite(seq(2, _ => Unset), None, entries, 1) == [e0, Unset];
    var st := Round(records, 1, submit, retriable, s);
    assert st.Next? && st.state.retryIndex == Some([]) && st.state.noRetry == 1;
    assert st.state.slots == Some([e0, Unset]);
    IterateUnfolds(records, 1, submit, retriable, s);
    var res := PutRecordsResult(1, [e0, Unset]);
    assert !res.records[1].ResultEntry?;
    CopyFaultCachesRequest(records, res);
  }
}
