/** What `innerPutRecordsWithRetry` promises, proved about its functional
    description `DISClient.PutRecordsWithRetrySpec` (which the imperative
    `DISClient.PutRecordsWithRetry` is proved to compute). */
module RetryProperties {
  import opened PutRecords
  import opened RetryFold
  import opened DISClient

  /** The batches submitted, in order. */
  function Submissions(t: seq<Event>): (bs: seq<seq<Record>>)
    ensures |bs| <= |t|
  {
    if |t| == 0 then []
    else Submissions(t[..|t| - 1]) + (if t[|t| - 1].Submit? then [t[|t| - 1].batch] else [])
  }

  /** Number of occurrences of event e. */
  function Count(t: seq<Event>, e: Event): (n: nat)
    ensures n <= |t|
  {
    if |t| == 0 then 0
    else Count(t[..|t| - 1], e) + (if t[|t| - 1] == e then 1 else 0)
  }

  lemma {:induction false} TraceAppend(a: seq<Event>, b: seq<Event>)
    ensures Submissions(a + b) == Submissions(a) + Submissions(b)
    ensures forall e :: Count(a + b, e) == Count(a, e) + Count(b, e)
    decreases |b|
  {
    if |b| == 0 {
      assert a + b == a;
    } else {
      var b0 := b[..|b| - 1];
      TraceAppend(a, b0);
      assert (a + b)[..|a + b| - 1] == a + b0;
      assert (a + b)[|a + b| - 1] == b[|b| - 1];
    }
  }

  /** The events of one round, before the transport is called. */
  lemma RoundEvents(rc: int, s: LoopState, batch: seq<Record>)
    requires rc >= 0
    ensures Submissions(Prelude(rc, s.previous, s.currentFailed) + [Submit(batch)]) == [batch]
    ensures Count(Prelude(rc, s.previous, s.currentFailed) + [Submit(batch)], BackOff) == (if rc > 0 then 1 else 0)
    ensures Count(Prelude(rc, s.previous, s.currentFailed) + [Submit(batch)], Lock) == (if rc == 1 then 1 else 0)
    ensures Count(Prelude(rc, s.previous, s.currentFailed) + [Submit(batch)], Unlock) == 0
  {
    var p := Prelude(rc, s.previous, s.currentFailed);
    if rc > 0 {
      var l := if rc == 1 then [Lock] else [];
      var r := if s.previous.Some? && s.currentFailed != |s.previous.value.records| then [ResetInterval] else [];
      TraceAppend(l, r);
      TraceAppend(l + r, [BackOff]);
    }
    TraceAppend(p, [Submit(batch)]);
  }

  lemma ReleaseEvents(rc: int)
    ensures Submissions(Release(rc)) == []
    ensures Count(Release(rc), BackOff) == 0 && Count(Release(rc), Lock) == 0
    ensures Count(Release(rc), Unlock) == (if rc > 0 then 1 else 0)
  {
  }

  function Max(a: int, b: int): int {
    if a < b then b else a
  }

  /** The trace a round leaves behind: the trace before it, the round's prelude
      and submission, and the lock release when the method ends in that round. */
  lemma RoundTrace(records: seq<Record>, retries: int, submit: Transport, retriable: Classifier, s: LoopState)
    requires Inv(s, |records|)
    ensures Round(records, retries, submit, retriable, s).Done? ==>
      Round(records, retries, submit, retriable, s).run.trace
      == s.trace + Prelude(s.retryCount + 1, s.previous, s.currentFailed) + [Submit(s.request)] + Release(s.retryCount + 1)
    ensures !Round(records, retries, submit, retriable, s).Done? ==>
      Round(records, retries, submit, retriable, s).state.trace
      == s.trace + Prelude(s.retryCount + 1, s.previous, s.currentFailed) + [Submit(s.request)]
  {
  }

  /** Event counts after round rc, and after the release that may end the method there. */
  lemma CountsAfterRound(t: seq<Event>, rc: int, s: LoopState)
    requires rc >= 0
    requires |Submissions(t)| == rc && Count(t, BackOff) == Max(rc - 1, 0)
    requires Count(t, Lock) == (if rc >= 2 then 1 else 0) && Count(t, Unlock) == 0
    ensures Submissions(t + Prelude(rc, s.previous, s.currentFailed) + [Submit(s.request)]) == Submissions(t) + [s.request]
    ensures Submissions(t + Prelude(rc, s.previous, s.currentFailed) + [Submit(s.request)] + Release(rc))
         == Submissions(t) + [s.request]
    ensures Count(t + Prelude(rc, s.previous, s.currentFailed) + [Submit(s.request)], BackOff) == rc
    ensures Count(t + Prelude(rc, s.previous, s.currentFailed) + [Submit(s.request)], Lock) == (if rc >= 1 then 1 else 0)
    ensures Count(t + Prelude(rc, s.previous, s.currentFailed) + [Submit(s.request)], Unlock) == 0
    ensures |Submissions(t + Prelude(rc, s.previous, s.currentFailed) + [Submit(s.request)] + Release(rc))| == rc + 1
    ensures Count(t + Prelude(rc, s.previous, s.currentFailed) + [Submit(s.request)] + Release(rc), BackOff) == rc
    ensures Count(t + Prelude(rc, s.previous, s.currentFailed) + [Submit(s.request)] + Release(rc), Lock)
         == Count(t + Prelude(rc, s.previous, s.currentFailed) + [Submit(s.request)] + Release(rc), Unlock)
         == (if rc >= 1 then 1 else 0)
  {
    var round := Prelude(rc, s.previous, s.currentFailed) + [Submit(s.request)];
    RoundEvents(rc, s, s.request);
    TraceAppend(t, round);
    assert t + Prelude(rc, s.previous, s.currentFailed) + [Submit(s.request)] == t + round;
    ReleaseEvents(rc);
    TraceAppend(t + round, Release(rc));
  }

  /** The submissions of the loop run from state s on extend those of s's
      trace by s's request at least, and never go past round `retries`. */
  lemma {:induction false} TraceSubmissions(records: seq<Record>, retries: int, submit: Transport, retriable: Classifier, s: LoopState)
    requires Inv(s, |records|)
    requires |Submissions(s.trace)| == s.retryCount + 1
    requires Count(s.trace, BackOff) == Max(s.retryCount, 0)
    requires Count(s.trace, Lock) == (if s.retryCount >= 1 then 1 else 0)
    requires Count(s.trace, Unlock) == 0
    ensures Submissions(s.trace) + [s.request] <= Submissions(Iterate(records, retries, submit, retriable, s).trace)
    ensures |Submissions(Iterate(records, retries, submit, retriable, s).trace)| <= Max(retries, s.retryCount + 1) + 1
    decreases retries - s.retryCount
  {
    var st := Round(records, retries, submit, retriable, s);
    if st.Next? && Continues(retries, st.state) {
      NextRoundTrace(records, retries, submit, retriable, s);
      TraceSubmissions(records, retries, submit, retriable, st.state);
      var before, after := Submissions(s.trace) + [s.request], Submissions(Iterate(records, retries, submit, retriable, s).trace);
      assert before == Submissions(st.state.trace) && before <= before + [st.state.request] <= after;
    } else {
      LastRoundTrace(records, retries, submit, retriable, s);
    }
  }

  /** The events of the loop run from state s on: one back-off before every
      submission but the first, and the lock taken and released once exactly
      when there is a retry. */
  lemma {:induction false} TraceCounts(records: seq<Record>, retries: int, submit: Transport, retriable: Classifier, s: LoopState)
    requires Inv(s, |records|)
    requires |Submissions(s.trace)| == s.retryCount + 1
    requires Count(s.trace, BackOff) == Max(s.retryCount, 0)
    requires Count(s.trace, Lock) == (if s.retryCount >= 1 then 1 else 0)
    requires Count(s.trace, Unlock) == 0
    ensures Count(Iterate(records, retries, submit, retriable, s).trace, BackOff)
            == |Submissions(Iterate(records, retries, submit, retriable, s).trace)| - 1
    ensures Count(Iterate(records, retries, submit, retriable, s).trace, Lock)
            == Count(Iterate(records, retries, submit, retriable, s).trace, Unlock)
            == (if |Submissions(Iterate(records, retries, submit, retriable, s).trace)| > 1 then 1 else 0)
    decreases retries - s.retryCount
  {
    var st := Round(records, retries, submit, retriable, s);
    if st.Next? && Continues(retries, st.state) {
      NextRoundTrace(records, retries, submit, retriable, s);
      TraceCounts(records, retries, submit, retriable, st.state);
    } else {
      LastRoundTrace(records, retries, submit, retriable, s);
    }
  }

  /** A round after which the loop goes on leaves the counts the trace lemmas ask for. */
  lemma NextRoundTrace(records: seq<Record>, retries: int, submit: Transport, retriable: Classifier, s: LoopState)
    requires Inv(s, |records|)
    requires Round(records, retries, submit, retriable, s).Next?
             && Continues(retries, Round(records, retries, submit, retriable, s).state)
    requires |Submissions(s.trace)| == s.retryCount + 1
    requires Count(s.trace, BackOff) == Max(s.retryCount, 0)
    requires Count(s.trace, Lock) == (if s.retryCount >= 1 then 1 else 0)
    requires Count(s.trace, Unlock) == 0
    ensures Iterate(records, retries, submit, retriable, s)
            == Iterate(records, retries, submit, retriable, Round(records, retries, submit, retriable, s).state)
    ensures Submissions(Round(records, retries, submit, retriable, s).state.trace) == Submissions(s.trace) + [s.request]
    ensures Count(Round(records, retries, submit, retriable, s).state.trace, BackOff) == s.retryCount + 1
    ensures Count(Round(records, retries, submit, retriable, s).state.trace, Lock) == (if s.retryCount >= 0 then 1 else 0)
    ensures Count(Round(records, retries, submit, retriable, s).state.trace, Unlock) == 0
  {
    CountsAfterRound(s.trace, s.retryCount + 1, s);
    RoundTrace(records, retries, submit, retriable, s);
    IterateUnfolds(records, retries, submit, retriable, s);
  }

  /** The round in which the method ends leaves the counts the trace lemmas state. */
  lemma LastRoundTrace(records: seq<Record>, retries: int, submit: Transport, retriable: Classifier, s: LoopState)
    requires Inv(s, |records|)
    requires !(Round(records, retries, submit, retriable, s).Next?
               && Continues(retries, Round(records, retries, submit, retriable, s).state))
    requires |Submissions(s.trace)| == s.retryCount + 1
    requires Count(s.trace, BackOff) == Max(s.retryCount, 0)
    requires Count(s.trace, Lock) == (if s.retryCount >= 1 then 1 else 0)
    requires Count(s.trace, Unlock) == 0
    ensures Submissions(Iterate(records, retries, submit, retriable, s).trace) == Submissions(s.trace) + [s.request]
    ensures Count(Iterate(records, retries, submit, retriable, s).trace, BackOff) == s.retryCount + 1
    ensures Count(Iterate(records, retries, submit, retriable, s).trace, Lock)
            == Count(Iterate(records, retries, submit, retriable, s).trace, Unlock)
            == (if s.retryCount >= 0 then 1 else 0)
  {
    CountsAfterRound(s.trace, s.retryCount + 1, s);
    RoundTrace(records, retries, submit, retriable, s);
    IterateUnfolds(records, retries, submit, retriable, s);
  }

  /** Submissions and lock discipline of the whole method: between one and
      `recordsRetries + 1` submissions, the first of the caller's whole batch; a
      back-off before each retry; the retry lock taken and released exactly once
      when there is a retry, and not at all otherwise. */
  lemma SubmissionBounds(records: seq<Record>, retries: int, submit: Transport, retriable: Classifier)
    ensures 1 <= |Submissions(PutRecordsWithRetrySpec(records, retries, submit, retriable).trace)| <= Max(retries, 0) + 1
    ensures Submissions(PutRecordsWithRetrySpec(records, retries, submit, retriable).trace)[0] == records
    ensures Count(PutRecordsWithRetrySpec(records, retries, submit, retriable).trace, BackOff)
            == |Submissions(PutRecordsWithRetrySpec(records, retries, submit, retriable).trace)| - 1
    ensures Count(PutRecordsWithRetrySpec(records, retries, submit, retriable).trace, Lock)
            == Count(PutRecordsWithRetrySpec(records, retries, submit, retriable).trace, Unlock)
            == (if |Submissions(PutRecordsWithRetrySpec(records, retries, submit, retriable).trace)| > 1 then 1 else 0)
  {
    TraceSubmissions(records, retries, submit, retriable, Initial(records));
    TraceCounts(records, retries, submit, retriable, Initial(records));
  }

  /** The interval reset among the events before submission rc. */
  lemma PreludeResets(rc: int, previous: Option<PutRecordsResult>, currentFailed: int, batch: seq<Record>)
    ensures Count(Prelude(rc, previous, currentFailed) + [Submit(batch)], ResetInterval)
         == (if rc > 0 && previous.Some? && currentFailed != |previous.value.records| then 1 else 0)
  {
    if rc > 0 {
      var l := if rc == 1 then [Lock] else [];
      var r := if previous.Some? && currentFailed != |previous.value.records| then [ResetInterval] else [];
      TraceAppend(l, r);
      TraceAppend(l + r, [BackOff]);
    }
    TraceAppend(Prelude(rc, previous, currentFailed), [Submit(batch)]);
  }

  /** The back-off interval is reset before a retry exactly when the round
      before it was answered with a result that did not fail entirely: a null
      answer, or a result whose every entry failed, adds no reset. */
  lemma ResetAfterPartialFailure(records: seq<Record>, retries: int, submit: Transport, retriable: Classifier, s: LoopState)
    requires Inv(s, |records|) && Round(records, retries, submit, retriable, s).Next?
    ensures (var t := Round(records, retries, submit, retriable, s).state;
             var next := Round(records, retries, submit, retriable, t);
             var reply := submit(s.retryCount + 1, s.request);
             Count(if next.Done? then next.run.trace else next.state.trace, ResetInterval)
             == Count(t.trace, ResetInterval)
                + (if reply.Result? && reply.result.failedRecordCount != |reply.result.records| then 1 else 0))
  {
    var t := Round(records, retries, submit, retriable, s).state;
    var reply := submit(s.retryCount + 1, s.request);
    if reply.Result? {
      RoundAbsorbs(records, retries, submit, retriable, s);
    } else if reply.NullResult? {
      RoundNoResult(records, retries, submit, retriable, s);
    }
    var rc := t.retryCount + 1;
    var round := Prelude(rc, t.previous, t.currentFailed) + [Submit(t.request)];
    PreludeResets(rc, t.previous, t.currentFailed, t.request);
    RoundTrace(records, retries, submit, retriable, t);
    TraceAppend(t.trace, round);
    assert t.trace + Prelude(rc, t.previous, t.currentFailed) + [Submit(t.request)] == t.trace + round;
    TraceAppend(t.trace + round, Release(rc));
  }

  /** The fold bookkeeping that holds at every iteration: before the first fold
      nothing is counted and the whole batch is pending; after it, no slot is
      `null`, the slots hold exactly `|retryIndex| + noRetryRecordsCount` errors,
      every slot still queued for a retry holds an error, and the pending request
      covers the queue. */
  ghost predicate Tally(records: seq<Record>, retries: int, s: LoopState) {
    Inv(s, |records|)
    && (s.slots.None? ==> s.noRetry == 0 && s.request == records)
    && (s.slots.Some? ==>
          retries != 0
          && |s.request| >= |s.retryIndex.value|
          && NoUnset(s.slots.value)
          && CountErrors(s.slots.value) == |s.retryIndex.value| + s.noRetry
          && forall j :: 0 <= j < |s.retryIndex.value| ==> HasError(s.slots.value[s.retryIndex.value[j]]))
  }

  /** A result whose failed count is the number of its entries with an error code,
      one entry per original record and none of them `null`; or, when no round
      was folded, every record failed. */
  predicate Exact(records: seq<Record>, r: PutRecordsResult) {
    r == PutRecordsResult(|records|, [])
    || (|r.records| == |records| && NoUnset(r.records) && r.failedRecordCount == CountErrors(r.records))
  }

  /** A fold keeps the bookkeeping when the transport answered one entry per submitted record. */
  lemma AbsorbKeepsTally(records: seq<Record>, retries: int, retriable: Classifier, s: LoopState, rc: int,
                         trace: seq<Event>, res: ServiceResult)
    requires Tally(records, retries, s) && rc == s.retryCount + 1
    requires |res.records| == |s.request|
    requires Absorb(records, retries, retriable, s, rc, trace, res).Next?
    ensures Tally(records, retries, Absorb(records, retries, retriable, s, rc, trace, res).state)
  {
    var entries := res.records;
    var k := |entries|;
    var idx := s.retryIndex;
    var slots0 := if s.slots.Some? then s.slots.value else seq(|records|, _ => Unset);
    var t := Absorb(records, retries, retriable, s, rc, trace, res).state;
    OverwriteErrors(slots0, idx, entries, k);
    QueuedPlusPermanent(idx, entries, k, retriable);
    assert entries[..k] == entries;
    if s.slots.None? {
      ErrorsAtNone(slots0, idx, k);
      CountErrorsNone(slots0);
    } else {
      ErrorsAtAll(slots0, idx, k);
    }
    QueuedSound(idx, entries, k, retriable);
    OverwriteFacts(slots0, idx, entries, k);
    var q := Queued(idx, entries, k, retriable);
    var rounds := Queued(None, entries, k, retriable);
    forall j | 0 <= j < |q|
      ensures HasError(t.slots.value[q[j]])
    {
      assert q[j] == OriginalIndex(idx, rounds[j]);
    }
    forall j | 0 <= j < |records|
      ensures t.slots.value[j].ResultEntry?
    {
      if idx.None? {
        assert OriginalIndex(idx, j) == j;
      }
    }
  }

  /** One round keeps the bookkeeping, and a result returned in it is exact. */
  lemma RoundKeepsTally(records: seq<Record>, retries: int, submit: Transport, retriable: Classifier, s: LoopState)
    requires Tally(records, retries, s) && HonoursLength(submit) && ConsistentCounts(submit)
    ensures !Round(records, retries, submit, retriable, s).Done? ==>
      Tally(records, retries, Round(records, retries, submit, retriable, s).state)
    ensures Round(records, retries, submit, retriable, s).Done? && Round(records, retries, submit, retriable, s).run.outcome.Returned? ==>
      Exact(records, Round(records, retries, submit, retriable, s).run.outcome.result)
  {
    var rc := s.retryCount + 1;
    var reply := submit(rc, s.request);
    if reply.Result? {
      var trace := s.trace + Prelude(rc, s.previous, s.currentFailed) + [Submit(s.request)];
      if Absorb(records, retries, retriable, s, rc, trace, reply.result).Next? {
        AbsorbKeepsTally(records, retries, retriable, s, rc, trace, reply.result);
      }
    }
  }

  /** The final result built after the loop is exact. */
  lemma FinishExact(records: seq<Record>, retries: int, s: LoopState)
    requires Tally(records, retries, s)
    ensures Exact(records, Finish(records, s).outcome.result)
  {
  }

  lemma {:induction false} ExactFrom(records: seq<Record>, retries: int, submit: Transport, retriable: Classifier, s: LoopState)
    requires Tally(records, retries, s) && HonoursLength(submit) && ConsistentCounts(submit)
    ensures Iterate(records, retries, submit, retriable, s).outcome.Returned? ==>
      Exact(records, Iterate(records, retries, submit, retriable, s).outcome.result)
    decreases retries - s.retryCount
  {
    var st := Round(records, retries, submit, retriable, s);
    RoundKeepsTally(records, retries, submit, retriable, s);
    IterateUnfolds(records, retries, submit, retriable, s);
    if st.Next? && Continues(retries, st.state) {
      ExactFrom(records, retries, submit, retriable, st.state);
    } else if !st.Done? {
      FinishExact(records, retries, st.state);
    }
  }

  /** The failed count of a returned result is exact: when the service answers
      one entry per submitted record and reports its failures truthfully, the
      result has one entry per original record and its failed count is the number
      of entries that still carry an error, retriable ones left over when the
      retries ran out (or a later round threw) included; only when no round was
      folded does it fall back to "every record failed" with no entries. */
  lemma FailedCountExact(records: seq<Record>, retries: int, submit: Transport, retriable: Classifier)
    requires HonoursLength(submit) && ConsistentCounts(submit)
    ensures PutRecordsWithRetrySpec(records, retries, submit, retriable).outcome.Returned? ==>
      Exact(records, PutRecordsWithRetrySpec(records, retries, submit, retriable).outcome.result)
  {
    ExactFrom(records, retries, submit, retriable, Initial(records));
  }

  /** No submission in `subs` was answered with a result; `subs[k]` is the
      batch of the k-th call of the transport. */
  ghost predicate NoRoundResulted(submit: Transport, subs: seq<seq<Record>>) {
    forall k :: 0 <= k < |subs| ==> !submit(k, subs[k]).Result?
  }

  lemma NoRoundResultedSnoc(submit: Transport, subs: seq<seq<Record>>, b: seq<Record>)
    ensures NoRoundResulted(submit, subs + [b]) <==> NoRoundResulted(submit, subs) && !submit(|subs|, b).Result?
  {
    var all := subs + [b];
    if NoRoundResulted(submit, all) {
      assert all[|subs|] == b;
      forall k | 0 <= k < |subs|
        ensures !submit(k, subs[k]).Result?
      {
        assert all[k] == subs[k];
      }
    }
  }

  /** What the loop state says about the replies so far: the result array is
      still unallocated exactly while no submission has been answered with a result. */
  ghost predicate Unanswered(records: seq<Record>, retries: int, submit: Transport, s: LoopState) {
    Tally(records, retries, s)
    && |Submissions(s.trace)| == s.retryCount + 1
    && (s.slots.None? <==> NoRoundResulted(submit, Submissions(s.trace)))
  }

  /** One round keeps that link, and a result it returns as it is has entries. */
  lemma RoundKeepsUnanswered(records: seq<Record>, retries: int, submit: Transport, retriable: Classifier, s: LoopState)
    requires Unanswered(records, retries, submit, s) && |records| > 0
    requires HonoursLength(submit) && ConsistentCounts(submit)
    ensures Round(records, retries, submit, retriable, s).Done?
            && Round(records, retries, submit, retriable, s).run.outcome.Returned? ==>
      Round(records, retries, submit, retriable, s).run.outcome.result.records != []
      && !NoRoundResulted(submit, Submissions(Round(records, retries, submit, retriable, s).run.trace))
    ensures !Round(records, retries, submit, retriable, s).Done? ==>
      Unanswered(records, retries, submit, Round(records, retries, submit, retriable, s).state)
      && Submissions(Finish(records, Round(records, retries, submit, retriable, s).state).trace)
         == Submissions(Round(records, retries, submit, retriable, s).state.trace)
  {
    SubmissionsOfRound(records, retries, submit, retriable, s);
    RoundKeepsTally(records, retries, submit, retriable, s);
    NoRoundResultedSnoc(submit, Submissions(s.trace), s.request);
    var reply := submit(s.retryCount + 1, s.request);
    if reply.Result? {
      RoundAbsorbs(records, retries, submit, retriable, s);
      assert |reply.result.records| == |s.request|;
    } else if reply.NullResult? {
      RoundNoResult(records, retries, submit, retriable, s);
    }
  }

  lemma {:induction false} UnansweredFrom(records: seq<Record>, retries: int, submit: Transport, retriable: Classifier,
                                          s: LoopState)
    requires Unanswered(records, retries, submit, s) && |records| > 0
    requires HonoursLength(submit) && ConsistentCounts(submit)
    ensures Iterate(records, retries, submit, retriable, s).outcome.Returned?
            && NoRoundResulted(submit, Submissions(Iterate(records, retries, submit, retriable, s).trace)) ==>
      Iterate(records, retries, submit, retriable, s).outcome.result == PutRecordsResult(|records|, [])
    ensures Iterate(records, retries, submit, retriable, s).outcome.Returned?
            && Iterate(records, retries, submit, retriable, s).outcome.result.records == [] ==>
      NoRoundResulted(submit, Submissions(Iterate(records, retries, submit, retriable, s).trace))
    decreases retries - s.retryCount
  {
    var st := Round(records, retries, submit, retriable, s);
    RoundKeepsUnanswered(records, retries, submit, retriable, s);
    IterateUnfolds(records, retries, submit, retriable, s);
    if st.Next? && Continues(retries, st.state) {
      UnansweredFrom(records, retries, submit, retriable, st.state);
    }
  }

  /** The fallback result "every record failed, no entries" is returned
      exactly when no submission was answered with a result: it is never the
      answer to a folded round, and a non-empty batch tells the two apart. */
  lemma FallbackOnlyWithoutResult(records: seq<Record>, retries: int, submit: Transport, retriable: Classifier)
    requires HonoursLength(submit) && ConsistentCounts(submit) && |records| > 0
    ensures PutRecordsWithRetrySpec(records, retries, submit, retriable).outcome.Returned?
            && NoRoundResulted(submit, Submissions(PutRecordsWithRetrySpec(records, retries, submit, retriable).trace)) ==>
      PutRecordsWithRetrySpec(records, retries, submit, retriable).outcome.result == PutRecordsResult(|records|, [])
    ensures PutRecordsWithRetrySpec(records, retries, submit, retriable).outcome.Returned?
            && PutRecordsWithRetrySpec(records, retries, submit, retriable).outcome.result.records == [] ==>
      NoRoundResulted(submit, Submissions(PutRecordsWithRetrySpec(records, retries, submit, retriable).trace))
  {
    UnansweredFrom(records, retries, submit, retriable, Initial(records));
  }

  /** A first submission that reports no failure, or any first result when
      retries are disabled, is returned as it is: one submission, no lock, no back-off. */
  lemma EarlyReturn(records: seq<Record>, retries: int, submit: Transport, retriable: Classifier, res: ServiceResult)
    requires submit(0, records) == Result(res)
    requires res.failedRecordCount == 0 || retries == 0
    ensures PutRecordsWithRetrySpec(records, retries, submit, retriable) == Run(Returned(res), [Submit(records)])
  {
    IterateUnfolds(records, retries, submit, retriable, Initial(records));
  }

  /** An exception from the first submission reaches the caller, with nothing to unlock. */
  lemma FirstFaultPropagates(records: seq<Record>, retries: int, submit: Transport, retriable: Classifier, e: Exception)
    requires submit(0, records) == Thrown(e)
    ensures PutRecordsWithRetrySpec(records, retries, submit, retriable) == Run(Raised(e), [Submit(records)])
  {
    IterateUnfolds(records, retries, submit, retriable, Initial(records));
  }

  /** An exception from a later submission ends the loop: the result is the last
      merged slots, and the records of the round in flight, whose slots still hold
      their errors, count as failed. */
  lemma LaterFaultFinalizes(records: seq<Record>, retries: int, submit: Transport, retriable: Classifier, s: LoopState)
    requires Tally(records, retries, s) && s.slots.Some?
    requires submit(s.retryCount + 1, s.request).Thrown?
    ensures Iterate(records, retries, submit, retriable, s).outcome
            == Returned(PutRecordsResult(CountErrors(s.slots.value), s.slots.value))
    ensures forall j :: 0 <= j < |s.retryIndex.value| ==>
            HasError(Iterate(records, retries, submit, retriable, s).outcome.result.records[s.retryIndex.value[j]])
  {
    IterateUnfolds(records, retries, submit, retriable, s);
  }

  /** The submissions of one round. */
  lemma SubmissionsOfRound(records: seq<Record>, retries: int, submit: Transport, retriable: Classifier, s: LoopState)
    requires Inv(s, |records|)
    ensures Round(records, retries, submit, retriable, s).Done? ==>
      Submissions(Round(records, retries, submit, retriable, s).run.trace) == Submissions(s.trace) + [s.request]
    ensures !Round(records, retries, submit, retriable, s).Done? ==>
      Submissions(Round(records, retries, submit, retriable, s).state.trace) == Submissions(s.trace) + [s.request]
      && Submissions(Finish(records, Round(records, retries, submit, retriable, s).state).trace)
         == Submissions(s.trace) + [s.request]
  {
    var rc := s.retryCount + 1;
    var round := Prelude(rc, s.previous, s.currentFailed) + [Submit(s.request)];
    RoundEvents(rc, s, s.request);
    TraceAppend(s.trace, round);
    assert s.trace + Prelude(rc, s.previous, s.currentFailed) + [Submit(s.request)] == s.trace + round;
    ReleaseEvents(rc);
    TraceAppend(s.trace + round, Release(rc));
    RoundTrace(records, retries, submit, retriable, s);
  }

  /** The batches go down a chain: the first is the caller's batch, and each
      one keeps, in order, some of the records of the one before. */
  ghost predicate Chain(records: seq<Record>, bs: seq<seq<Record>>) {
    (|bs| > 0 ==> bs[0] == records)
    && (forall k :: 0 <= k < |bs| ==> IsSubsequence(bs[k], records))
    && (forall k :: 0 < k < |bs| ==> IsSubsequence(bs[k], bs[k - 1]))
  }

  lemma ChainSnoc(records: seq<Record>, bs: seq<seq<Record>>, b: seq<Record>)
    requires Chain(records, bs) && IsSubsequence(b, records)
    requires |bs| == 0 ==> b == records
    requires |bs| > 0 ==> IsSubsequence(b, bs[|bs| - 1])
    ensures Chain(records, bs + [b])
  {
  }

  /** What the request about to be submitted is, while the loop goes on. */
  ghost predicate Pending(records: seq<Record>, s: LoopState) {
    Inv(s, |records|)
    && (s.slots.None? ==> s.request == records)
    && (s.slots.Some? ==> |s.retryIndex.value| > 0 && s.request == Pick(records, s.retryIndex.value))
    && Chain(records, Submissions(s.trace))
    && IsSubsequence(s.request, records)
    && (|Submissions(s.trace)| == 0 ==> s.request == records)
    && (|Submissions(s.trace)| > 0 ==> IsSubsequence(s.request, Submissions(s.trace)[|Submissions(s.trace)| - 1]))
  }

  /** The request a fold builds is the original records at the queued
      positions, in order, and keeps the order of the request it answers. */
  lemma FoldedRequest(records: seq<Record>, retries: int, retriable: Classifier, s: LoopState, rc: int,
                      trace: seq<Event>, res: PutRecordsResult)
    requires Pending(records, s) && rc == s.retryCount + 1
    requires |res.records| == |s.request| && res.failedRecordCount == CountErrors(res.records)
    requires Absorb(records, retries, retriable, s, rc, trace, res).Next?
    requires |Absorb(records, retries, retriable, s, rc, trace, res).state.retryIndex.value| > 0
    ensures Absorb(records, retries, retriable, s, rc, trace, res).state.request
            == Pick(records, Absorb(records, retries, retriable, s, rc, trace, res).state.retryIndex.value)
    ensures IsSubsequence(Absorb(records, retries, retriable, s, rc, trace, res).state.request, s.request)
    ensures IsSubsequence(Absorb(records, retries, retriable, s, rc, trace, res).state.request, records)
  {
    var entries := res.records;
    var k := |entries|;
    var idx := s.retryIndex;
    var q := Queued(idx, entries, k, retriable);
    var w := Queued(None, entries, k, retriable);
    QueuedPlusPermanent(idx, entries, k, retriable);
    assert entries[..k] == entries;
    QueuedOrdered(idx, |records|, entries, k, retriable);
    PickIsSubsequence(records, q);
    QueuedSound(idx, entries, k, retriable);
    QueuedOrdered(None, k, entries, k, retriable);
    if idx.Some? {
      var v := idx.value;
      assert q == Pick(v, w);
      PickOfPick(records, v, w);
      PickIsSubsequence(s.request, w);
    } else {
      assert q == w;
    }
  }

  lemma RoundKeepsPending(records: seq<Record>, retries: int, submit: Transport, retriable: Classifier, s: LoopState)
    requires Pending(records, s) && HonoursLength(submit) && ConsistentCounts(submit)
    requires Round(records, retries, submit, retriable, s).Next?
             && Continues(retries, Round(records, retries, submit, retriable, s).state)
    ensures Pending(records, Round(records, retries, submit, retriable, s).state)
  {
    var rc := s.retryCount + 1;
    SubmissionsOfRound(records, retries, submit, retriable, s);
    ChainSnoc(records, Submissions(s.trace), s.request);
    var reply := submit(rc, s.request);
    if reply.NullResult? {
      SubsequenceOfItself(s.request);
    } else {
      var trace := s.trace + Prelude(rc, s.previous, s.currentFailed) + [Submit(s.request)];
      FoldedRequest(records, retries, retriable, s, rc, trace, reply.result);
    }
  }

  lemma {:induction false} ChainFrom(records: seq<Record>, retries: int, submit: Transport, retriable: Classifier, s: LoopState)
    requires Pending(records, s) && HonoursLength(submit) && ConsistentCounts(submit)
    ensures Chain(records, Submissions(Iterate(records, retries, submit, retriable, s).trace))
    decreases retries - s.retryCount
  {
    var st := Round(records, retries, submit, retriable, s);
    if st.Next? && Continues(retries, st.state) {
      IterateUnfolds(records, retries, submit, retriable, s);
      RoundKeepsPending(records, retries, submit, retriable, s);
      ChainFrom(records, retries, submit, retriable, st.state);
    } else {
      LastRoundChain(records, retries, submit, retriable, s);
    }
  }

  /** The round in which the loop ends adds its request to the chain. */
  lemma LastRoundChain(records: seq<Record>, retries: int, submit: Transport, retriable: Classifier, s: LoopState)
    requires Pending(records, s)
    requires !(Round(records, retries, submit, retriable, s).Next?
               && Continues(retries, Round(records, retries, submit, retriable, s).state))
    ensures Chain(records, Submissions(Iterate(records, retries, submit, retriable, s).trace))
  {
    IterateUnfolds(records, retries, submit, retriable, s);
    SubmissionsOfRound(records, retries, submit, retriable, s);
    ChainSnoc(records, Submissions(s.trace), s.request);
  }

  /** Resubmission keeps order and never repeats a record: when the service
      answers one entry per record and reports its failures truthfully, the
      first batch is the caller's, and every later batch is a subsequence of the
      one before it (and so of the caller's batch). */
  lemma ResubmissionsShrink(records: seq<Record>, retries: int, submit: Transport, retriable: Classifier)
    requires HonoursLength(submit) && ConsistentCounts(submit)
    ensures Chain(records, Submissions(PutRecordsWithRetrySpec(records, retries, submit, retriable).trace))
  {
    SubsequenceOfItself(records);
    ChainFrom(records, retries, submit, retriable, Initial(records));
  }

  /** The transport answers every submission, and every entry carries a retriable error. */
  ghost predicate AlwaysRetriable(submit: Transport, retriable: Classifier) {
    forall k: nat, batch: seq<Record> :: submit(k, batch).Result?
      && forall j :: 0 <= j < |submit(k, batch).result.records| ==>
           RetriableError(submit(k, batch).result.records[j], retriable)
  }

  /** The loop state while every record keeps failing with a retriable error. */
  ghost predicate AllPending(records: seq<Record>, retries: int, s: LoopState) {
    Inv(s, |records|) && s.noRetry == 0
    && (s.slots.None? ==> s.request == records)
    && (s.slots.Some? ==> retries != 0 && |s.retryIndex.value| == |s.request| == |records|)
    && |Submissions(s.trace)| == s.retryCount + 1
  }

  lemma AbsorbAllPending(records: seq<Record>, retries: int, retriable: Classifier, s: LoopState, rc: int,
                         trace: seq<Event>, res: PutRecordsResult)
    requires AllPending(records, retries, s) && rc == s.retryCount + 1 && |records| > 0
    requires |res.records| == |s.request| && res.failedRecordCount == CountErrors(res.records)
    requires forall j :: 0 <= j < |res.records| ==> RetriableError(res.records[j], retriable)
    requires |Submissions(trace)| == rc + 1
    ensures Absorb(records, retries, retriable, s, rc, trace, res).Done? ==>
      Absorb(records, retries, retriable, s, rc, trace, res).run.outcome == Returned(res)
      && res.failedRecordCount == |records|
    ensures !Absorb(records, retries, retriable, s, rc, trace, res).Done? ==>
      AllPending(records, retries, Absorb(records, retries, retriable, s, rc, trace, res).state)
      && Continues(retries, Absorb(records, retries, retriable, s, rc, trace, res).state) == (rc < retries)
  {
    var k := |res.records|;
    AllQueued(s.retryIndex, res.records, k, retriable);
    assert res.records[..k] == res.records;
  }

  /** One more submission is on the trace after the transport has been called. */
  lemma SubmittedOnce(s: LoopState, rc: int)
    requires rc >= 0
    ensures |Submissions(s.trace + Prelude(rc, s.previous, s.currentFailed) + [Submit(s.request)])|
         == |Submissions(s.trace)| + 1
  {
    var round := Prelude(rc, s.previous, s.currentFailed) + [Submit(s.request)];
    RoundEvents(rc, s, s.request);
    TraceAppend(s.trace, round);
    assert s.trace + Prelude(rc, s.previous, s.currentFailed) + [Submit(s.request)] == s.trace + round;
  }

  /** A round whose transport call returns a result goes on as `Absorb` does. */
  lemma RoundAbsorbs(records: seq<Record>, retries: int, submit: Transport, retriable: Classifier, s: LoopState)
    requires Inv(s, |records|) && submit(s.retryCount + 1, s.request).Result?
    ensures Round(records, retries, submit, retriable, s)
         == Absorb(records, retries, retriable, s, s.retryCount + 1,
                   s.trace + Prelude(s.retryCount + 1, s.previous, s.currentFailed) + [Submit(s.request)],
                   submit(s.retryCount + 1, s.request).result)
  {
  }

  lemma RoundAllPending(records: seq<Record>, retries: int, submit: Transport, retriable: Classifier, s: LoopState)
    requires AllPending(records, retries, s) && |records| > 0
    requires HonoursLength(submit) && ConsistentCounts(submit) && AlwaysRetriable(submit, retriable)
    ensures Round(records, retries, submit, retriable, s).Done? ==>
      Round(records, retries, submit, retriable, s).run.outcome.Returned?
      && Round(records, retries, submit, retriable, s).run.outcome.result.failedRecordCount == |records|
    ensures !Round(records, retries, submit, retriable, s).Done? ==>
      Round(records, retries, submit, retriable, s).Next?
      && AllPending(records, retries, Round(records, retries, submit, retriable, s).state)
      && Continues(retries, Round(records, retries, submit, retriable, s).state) == (s.retryCount + 1 < retries)
  {
    var rc := s.retryCount + 1;
    var res := submit(rc, s.request).result;
    assert submit(rc, s.request).Result? && |res.records| == |s.request|
      && res.failedRecordCount == CountErrors(res.records);
    RoundAbsorbs(records, retries, submit, retriable, s);
    SubmittedOnce(s, rc);
    AbsorbAllPending(records, retries, retriable, s, rc,
                     s.trace + Prelude(rc, s.previous, s.currentFailed) + [Submit(s.request)], res);
  }

  /** Finishing while every record is still pending counts every record failed. */
  lemma FinishAllPending(records: seq<Record>, retries: int, s: LoopState)
    requires AllPending(records, retries, s)
    ensures Finish(records, s).outcome.Returned? && Finish(records, s).outcome.result.failedRecordCount == |records|
  {
  }

  lemma {:induction false} ExhaustionFrom(records: seq<Record>, retries: int, submit: Transport, retriable: Classifier, s: LoopState)
    requires AllPending(records, retries, s) && |records| > 0
    requires HonoursLength(submit) && ConsistentCounts(submit) && AlwaysRetriable(submit, retriable)
    ensures Iterate(records, retries, submit, retriable, s).outcome.Returned?
    ensures Iterate(records, retries, submit, retriable, s).outcome.result.failedRecordCount == |records|
    ensures |Submissions(Iterate(records, retries, submit, retriable, s).trace)| == Max(retries, s.retryCount + 1) + 1
    decreases retries - s.retryCount
  {
    var st := Round(records, retries, submit, retriable, s);
    RoundAllPending(records, retries, submit, retriable, s);
    SubmissionsOfRound(records, retries, submit, retriable, s);
    IterateUnfolds(records, retries, submit, retriable, s);
    if st.Next? {
      if Continues(retries, st.state) {
        ExhaustionFrom(records, retries, submit, retriable, st.state);
      } else {
        FinishAllPending(records, retries, st.state);
      }
    }
  }

  /** When every record keeps failing with a retriable error, all
      `recordsRetries + 1` submissions are made and every record counts as failed. */
  lemma Exhaustion(records: seq<Record>, retries: int, submit: Transport, retriable: Classifier)
    requires |records| > 0
    requires HonoursLength(submit) && ConsistentCounts(submit) && AlwaysRetriable(submit, retriable)
    ensures PutRecordsWithRetrySpec(records, retries, submit, retriable).outcome.Returned?
    ensures PutRecordsWithRetrySpec(records, retries, submit, retriable).outcome.result.failedRecordCount == |records|
    ensures |Submissions(PutRecordsWithRetrySpec(records, retries, submit, retriable).trace)| == Max(retries, 0) + 1
  {
    ExhaustionFrom(records, retries, submit, retriable, Initial(records));
  }

  /** A round whose transport call returns null goes on to the next round,
      with no result to remember. */
  lemma RoundNoResult(records: seq<Record>, retries: int, submit: Transport, retriable: Classifier, s: LoopState)
    requires Inv(s, |records|) && submit(s.retryCount + 1, s.request) == NullResult
    ensures Round(records, retries, submit, retriable, s)
         == Next(s.(retryCount := s.retryCount + 1, previous := None,
                    trace := s.trace + Prelude(s.retryCount + 1, s.previous, s.currentFailed) + [Submit(s.request)]))
  {
  }

  lemma {:induction false} NoResultFrom(records: seq<Record>, retries: int, submit: Transport, retriable: Classifier, s: LoopState)
    requires Inv(s, |records|) && s.slots.None? && |Submissions(s.trace)| == s.retryCount + 1
    requires forall k: nat, batch: seq<Record> :: submit(k, batch) == NullResult
    ensures Iterate(records, retries, submit, retriable, s).outcome == Returned(PutRecordsResult(|records|, []))
    ensures |Submissions(Iterate(records, retries, submit, retriable, s).trace)| == Max(retries, s.retryCount + 1) + 1
    decreases retries - s.retryCount
  {
    var st := Round(records, retries, submit, retriable, s);
    RoundNoResult(records, retries, submit, retriable, s);
    SubmissionsOfRound(records, retries, submit, retriable, s);
    IterateUnfolds(records, retries, submit, retriable, s);
    if Continues(retries, st.state) {
      NoResultFrom(records, retries, submit, retriable, st.state);
    }
  }

  /** When no round returns a result, all `recordsRetries + 1` submissions are
      made and every record of the batch counts as failed. */
  lemma NoResult(records: seq<Record>, retries: int, submit: Transport, retriable: Classifier)
    requires forall k: nat, batch: seq<Record> :: submit(k, batch) == NullResult
    ensures PutRecordsWithRetrySpec(records, retries, submit, retriable).outcome == Returned(PutRecordsResult(|records|, []))
    ensures |Submissions(PutRecordsWithRetrySpec(records, retries, submit, retriable).trace)| == Max(retries, 0) + 1
  {
    NoResultFrom(records, retries, submit, retriable, Initial(records));
  }
}
