/** `PutRecordsTrafficLimitRetryFuture` and `PutRecordsTrafficLimitRetryCallback`:
    the asynchronous counterpart of the retry loop. Each completed round is folded
    into a base result at most once (the `retryMergeIndex` gate), and the next
    round is submitted by whichever caller holds round index `retryCount` (the
    `retryCount` gate). Threads are replaced by calls made one after another in
    any order: a call is one callback or one step of `get()`, and whether
    `tryLock` succeeds is an input. */
module DISClientAsync2 {
  import opened PutRecords
  import opened RetryFold
  import opened DISClient

  /** What the future of one round completes with. */
  datatype AsyncReply = Completed(result: ServiceResult) | Failed(error: Exception)

  /** What `mergeRetryHandle` hands back: the newest (base) result, `null`, or
      an exception raised while folding. */
  datatype Merged = Newest(result: PutRecordsResult) | Null | Threw(error: Exception)

  /** What the future is created with: the request's records, `recordsRetries`
      and `isRecordsRetriableErrorCode`. */
  datatype Config = Config(records: seq<Record>, retries: int, retriable: Classifier)

  /** The future's fields, the batches submitted so far (`issued[k]` is round k)
      and the rounds folded and advanced so far, in order. */
  datatype FutureState = FutureState(
    retryCount: nat,
    retryMergeIndex: int,
    finished: bool,
    base: Option<PutRecordsResult>,
    retryRecordIndex: Option<seq<nat>>,
    issued: seq<seq<Record>>,
    folded: seq<nat>,
    advanced: seq<nat>)

  /** A fresh future, after `putRecordsAsync` has submitted the whole batch as round 0. */
  function Start(c: Config): (s: FutureState)
    ensures s.retryCount == 0 && s.retryMergeIndex == -1 && !s.finished && s.base.None?
    ensures s.issued == [c.records] && s.folded == [] && s.advanced == []
  {
    FutureState(0, -1, false, None, None, [c.records], [], [])
  }

  /** Entry j of round r folds without an out-of-bounds failure: the index map
      has a position for it, a record to queue lies inside the request, and
      after round 0 its slot lies inside the base result of length `slots`. */
  predicate FoldsAt(c: Config, idx: Option<seq<nat>>, entries: seq<ResultEntry>, canRetry: bool,
                    slots: nat, r: nat, j: nat)
    requires j < |entries|
  {
    Covers(idx, j + 1)
    && (canRetry && RetriableError(entries[j], c.retriable) ==> OriginalIndex(idx, j) < |c.records|)
    && (r != 0 ==> OriginalIndex(idx, j) < slots)
  }

  /** The first entry, from i on, whose fold fails; |entries| when none does. */
  function FoldLimit(c: Config, idx: Option<seq<nat>>, entries: seq<ResultEntry>, canRetry: bool,
                     slots: nat, r: nat, i: nat): (k: nat)
    requires i <= |entries| && Covers(idx, i)
    ensures i <= k <= |entries| && Covers(idx, k)
    ensures forall j :: i <= j < k ==> FoldsAt(c, idx, entries, canRetry, slots, r, j)
    ensures k < |entries| ==> !FoldsAt(c, idx, entries, canRetry, slots, r, k)
    decreases |entries| - i
  {
    if i == |entries| || !FoldsAt(c, idx, entries, canRetry, slots, r, i) then i
    else FoldLimit(c, idx, entries, canRetry, slots, r, i + 1)
  }

  /** The positions the fold of the first k entries collects for the next round. */
  function Collected(c: Config, idx: Option<seq<nat>>, entries: seq<ResultEntry>, canRetry: bool, k: nat): seq<nat>
    requires k <= |entries| && Covers(idx, k)
  {
    if canRetry then Queued(idx, entries, k, c.retriable) else []
  }

  /** Collected positions of entries that fold all lie inside the request. */
  lemma CollectedWithin(c: Config, idx: Option<seq<nat>>, entries: seq<ResultEntry>, canRetry: bool,
                        slots: nat, r: nat, k: nat)
    requires k <= |entries| && Covers(idx, k)
    requires forall j :: 0 <= j < k ==> FoldsAt(c, idx, entries, canRetry, slots, r, j)
    ensures AllBelow(Collected(c, idx, entries, canRetry, k), |c.records|)
  {
    if canRetry {
      QueuedSound(idx, entries, k, c.retriable);
      var w := Queued(None, entries, k, c.retriable);
      forall j | 0 <= j < |w|
        ensures Queued(idx, entries, k, c.retriable)[j] < |c.records|
      {
        assert FoldsAt(c, idx, entries, canRetry, slots, r, w[j]);
      }
    }
  }

  /** After round 0, every entry that folds has its slot inside the base result. */
  lemma SlotsWithin(c: Config, idx: Option<seq<nat>>, entries: seq<ResultEntry>, canRetry: bool,
                    slots: nat, r: nat, k: nat)
    requires k <= |entries| && Covers(idx, k) && r != 0
    requires forall j :: 0 <= j < k ==> FoldsAt(c, idx, entries, canRetry, slots, r, j)
    ensures forall j :: 0 <= j < k ==> OriginalIndex(idx, j) < slots
  {
    forall j | 0 <= j < k
      ensures OriginalIndex(idx, j) < slots
    {
      assert FoldsAt(c, idx, entries, canRetry, slots, r, j);
    }
  }

  /** What the loop of `mergeResult` over the entries of round r produces: it
      stops at the first entry that does not fold, with the slots written so
      far; otherwise the base slots with the round's entries written over them
      after round 0, the positions and records collected for the next round,
      and the number of entries that succeeded. */
  datatype RoundFold = RoundFold(fault: bool, positions: seq<nat>, batch: seq<Record>,
                                 slots: seq<ResultEntry>, successes: nat)

  function FoldRoundSpec(c: Config, idx: Option<seq<nat>>, entries: seq<ResultEntry>, canRetry: bool,
                         slots0: seq<ResultEntry>, r: nat): (f: RoundFold)
    ensures |f.slots| == |slots0|
    ensures f.fault ==> f.positions == [] && f.batch == []
    ensures AllBelow(f.positions, |c.records|) && f.batch == Pick(c.records, f.positions)
    ensures !canRetry ==> f.positions == []
  {
    var k := FoldLimit(c, idx, entries, canRetry, |slots0|, r, 0);
    var slots := if r != 0 then SlotsWithin(c, idx, entries, canRetry, |slots0|, r, k);
                                Overwrite(slots0, idx, entries, k)
                 else slots0;
    if k < |entries| then RoundFold(true, [], [], slots, 0)
    else
      var q := Collected(c, idx, entries, canRetry, k);
      CollectedWithin(c, idx, entries, canRetry, |slots0|, r, k);
      RoundFold(false, q, Pick(c.records, q), slots, Successes(entries, k))
  }

  /** What the fold of one round leaves: the new state, whether it failed part
      way, and the positions and records it collected for the next round. */
  datatype Fold = Fold(state: FutureState, fault: bool, positions: seq<nat>, batch: seq<Record>)

  /** `mergeResult`: the first result merged becomes the base; round 0 without
      failures, or `recordsRetries == 0`, finishes; otherwise every entry is
      visited, retriable failures are collected (only while `r < recordsRetries`),
      after round 0 each entry overwrites its base slot and the base failed count
      drops by the round's successes, and nothing collected finishes. An entry
      outside the index map, the request or the base result aborts the fold
      there, with the slots written so far kept. */
  function MergeResultSpec(c: Config, s: FutureState, result: ServiceResult, r: nat): Fold {
    var base := if s.base.None? then result else s.base.value;
    var s1 := s.(base := Some(base), folded := s.folded + [r]);
    if (r == 0 && result.failedRecordCount == 0) || c.retries == 0 then
      Fold(s1.(finished := true), false, [], [])
    else
      var f := FoldRoundSpec(c, s.retryRecordIndex, result.records, r < c.retries, base.records, r);
      if f.fault then
        Fold(s1.(base := Some(base.(records := f.slots))), true, [], [])
      else
        var failed := if r != 0 then base.failedRecordCount - f.successes else base.failedRecordCount;
        Fold(s1.(base := Some(PutRecordsResult(failed, f.slots)), finished := s.finished || f.positions == []),
             false, f.positions, f.batch)
  }

  datatype Handled = Handled(state: FutureState, merged: Merged)

  /** `mergeRetryHandle(result, tryLock, r)`: fold round r if the merge gate moves
      from r - 1 to r; a finished future hands back its base result; otherwise
      the caller that gets the lock and still holds round `retryCount` installs
      the collected positions as the index map, moves to the next round and
      submits the collected records. Every other caller gets `null`. */
  function MergeRetryHandleSpec(c: Config, s: FutureState, result: ServiceResult,
                                tryLock: bool, lockAcquired: bool, r: nat): Handled
  {
    var f := if s.retryMergeIndex == r - 1 then MergeResultSpec(c, s.(retryMergeIndex := r), result, r)
             else Fold(s, false, [], []);
    var t := f.state;
    if f.fault then Handled(t, Threw(IndexOutOfBounds))
    else if t.finished then Handled(t, if t.base.Some? then Newest(t.base.value) else Null)
    else if (tryLock && !lockAcquired) || r != t.retryCount then Handled(t, Null)
    else Handled(t.(retryRecordIndex := Some(f.positions), retryCount := t.retryCount + 1,
                    issued := t.issued + [f.batch], advanced := t.advanced + [r]), Null)
  }

  datatype Excepted = Excepted(state: FutureState, newest: Option<PutRecordsResult>)

  /** `mergeException(e, r)`: move the merge gate from r - 1 to r, finish, and
      hand back the base result, if there is one. */
  function MergeExceptionSpec(s: FutureState, r: nat): Excepted {
    var t := s.(retryMergeIndex := if s.retryMergeIndex == r - 1 then r else s.retryMergeIndex, finished := true);
    Excepted(t, t.base)
  }

  /** What the callback makes the user's handler do. */
  datatype HandlerCall = NoCall | UserSuccess(result: PutRecordsResult) | UserError(error: Exception)

  datatype Callback = Callback(state: FutureState, call: HandlerCall)

  /** The callback's `onError` for round r: the base result, when there is one,
      is reported as a success, and the exception otherwise. */
  function OnErrorSpec(s: FutureState, r: nat, e: Exception): Callback {
    var x := MergeExceptionSpec(s, r);
    Callback(x.state, if x.newest.None? then UserError(e) else UserSuccess(x.newest.value))
  }

  /** The callback's `onSuccess` for round r, as written: when the merge hands
      back a result, the user's handler receives the round's own `result`; an
      exception from the fold goes to `onError`. */
  function OnSuccessSpec(c: Config, s: FutureState, r: nat, result: ServiceResult, lockAcquired: bool): Callback {
    var h := MergeRetryHandleSpec(c, s, result, true, lockAcquired, r);
    match h.merged
    case Null => Callback(h.state, NoCall)
    case Newest(_) => Callback(h.state, UserSuccess(result))
    case Threw(e) => OnErrorSpec(h.state, r, e)
  }

  /** The two gates' bookkeeping, kept by every call whatever its round index:
      the merge gate never moves back and folds each round at most once and in
      increasing order, and round k is advanced from exactly once, as the k-th advance. */
  ghost predicate Gates(s: FutureState) {
    s.retryMergeIndex >= -1
    && Increasing(s.folded) && AllBelow(s.folded, s.retryMergeIndex + 1)
    && |s.advanced| == s.retryCount
    && (forall j :: 0 <= j < |s.advanced| ==> s.advanced[j] == j)
  }

  /** The state reachable when every call names a round already submitted. */
  ghost predicate Good(c: Config, s: FutureState) {
    Gates(s)
    && s.retryCount - 1 <= s.retryMergeIndex <= s.retryCount
    && |s.issued| == s.retryCount + 1 && s.issued[0] == c.records
    && (s.retryCount == 0 <==> s.retryRecordIndex.None?)
    && (s.retryCount >= 1 ==> s.base.Some?)
    && (s.retryMergeIndex >= 0 ==> s.base.Some? || s.finished)
    && (s.retryRecordIndex.Some? ==>
          Increasing(s.retryRecordIndex.value) && AllBelow(s.retryRecordIndex.value, |c.records|)
          && s.issued[s.retryCount] == Pick(c.records, s.retryRecordIndex.value))
  }

  /** What a fold changes: the base (which it creates if missing), the
      finished flag (which it never clears) and the fold history. */
  lemma MergeResultShape(c: Config, s: FutureState, result: ServiceResult, r: nat)
    ensures MergeResultSpec(c, s, result, r).state
         == s.(base := MergeResultSpec(c, s, result, r).state.base,
               finished := MergeResultSpec(c, s, result, r).state.finished,
               folded := s.folded + [r])
    ensures MergeResultSpec(c, s, result, r).state.base.Some?
    ensures s.finished ==> MergeResultSpec(c, s, result, r).state.finished
  {
  }

  /** What a fold collects: positions rising strictly, inside the request, that
      name the records submitted next; a fold that leaves the future running has
      collected something, so its round was below `recordsRetries`. */
  lemma MergeResultCollects(c: Config, s: FutureState, result: ServiceResult, r: nat)
    requires s.retryRecordIndex.Some? ==>
      Increasing(s.retryRecordIndex.value) && AllBelow(s.retryRecordIndex.value, |c.records|)
    ensures Increasing(MergeResultSpec(c, s, result, r).positions)
    ensures AllBelow(MergeResultSpec(c, s, result, r).positions, |c.records|)
    ensures MergeResultSpec(c, s, result, r).batch == Pick(c.records, MergeResultSpec(c, s, result, r).positions)
    ensures !MergeResultSpec(c, s, result, r).fault && !MergeResultSpec(c, s, result, r).state.finished ==>
      r < c.retries
  {
    var base := if s.base.None? then result else s.base.value;
    if !((r == 0 && result.failedRecordCount == 0) || c.retries == 0) && r < c.retries {
      var idx := s.retryRecordIndex;
      var k := FoldLimit(c, idx, result.records, true, |base.records|, r, 0);
      if k == |result.records| {
        QueuedOrdered(idx, if idx.None? then k else |c.records|, result.records, k, c.retriable);
      }
    }
  }

  lemma MergeResultFacts(c: Config, s: FutureState, result: ServiceResult, r: nat)
    requires s.retryRecordIndex.Some? ==>
      Increasing(s.retryRecordIndex.value) && AllBelow(s.retryRecordIndex.value, |c.records|)
    ensures MergeResultSpec(c, s, result, r).state
         == s.(base := MergeResultSpec(c, s, result, r).state.base,
               finished := MergeResultSpec(c, s, result, r).state.finished,
               folded := s.folded + [r])
    ensures MergeResultSpec(c, s, result, r).state.base.Some?
    ensures s.finished ==> MergeResultSpec(c, s, result, r).state.finished
    ensures Increasing(MergeResultSpec(c, s, result, r).positions)
    ensures AllBelow(MergeResultSpec(c, s, result, r).positions, |c.records|)
    ensures MergeResultSpec(c, s, result, r).batch == Pick(c.records, MergeResultSpec(c, s, result, r).positions)
    ensures !MergeResultSpec(c, s, result, r).fault && !MergeResultSpec(c, s, result, r).state.finished ==>
      r < c.retries
  {
    MergeResultShape(c, s, result, r);
    MergeResultCollects(c, s, result, r);
  }

  lemma HandleKeepsGates(c: Config, s: FutureState, result: ServiceResult, tryLock: bool, lockAcquired: bool, r: nat)
    requires Gates(s)
    ensures Gates(MergeRetryHandleSpec(c, s, result, tryLock, lockAcquired, r).state)
    ensures MergeRetryHandleSpec(c, s, result, tryLock, lockAcquired, r).state.retryMergeIndex >= s.retryMergeIndex
  {
    if s.retryMergeIndex == r - 1 {
      MergeResultShape(c, s.(retryMergeIndex := r), result, r);
      IncreasingSnoc(s.folded, r);
    }
  }

  lemma ExceptionKeepsGates(s: FutureState, r: nat)
    requires Gates(s)
    ensures Gates(MergeExceptionSpec(s, r).state)
    ensures MergeExceptionSpec(s, r).state.retryMergeIndex >= s.retryMergeIndex
  {
  }

  lemma HandleKeepsGood(c: Config, s: FutureState, result: ServiceResult, tryLock: bool, lockAcquired: bool, r: nat)
    requires Good(c, s) && r <= s.retryCount
    ensures Good(c, MergeRetryHandleSpec(c, s, result, tryLock, lockAcquired, r).state)
  {
    HandleKeepsGates(c, s, result, tryLock, lockAcquired, r);
    if s.retryMergeIndex == r - 1 {
      MergeResultFacts(c, s.(retryMergeIndex := r), result, r);
    }
  }

  lemma ExceptionKeepsGood(c: Config, s: FutureState, r: nat)
    requires Good(c, s) && r <= s.retryCount
    ensures Good(c, MergeExceptionSpec(s, r).state)
  {
  }

  /** Bounds the rounds `get()` can still advance: a round still to be folded
      counts 1, and each round left below `recordsRetries` counts 2. */
  function Measure(c: Config, s: FutureState): nat {
    (if s.retryMergeIndex == s.retryCount - 1 then 0 else 1)
    + 2 * (if c.retries > s.retryCount then c.retries - s.retryCount else 0)
  }

  /** A step of `get()` that hands back `null` has either advanced to the next
      round, with the measure decreased, or found a finished future without a base. */
  lemma GetStepAdvances(c: Config, s: FutureState, result: ServiceResult)
    requires Good(c, s)
    requires MergeRetryHandleSpec(c, s, result, false, true, s.retryCount).merged.Null?
    ensures MergeRetryHandleSpec(c, s, result, false, true, s.retryCount).state.retryCount == s.retryCount + 1
         || (MergeRetryHandleSpec(c, s, result, false, true, s.retryCount).state.retryCount == s.retryCount
             && MergeRetryHandleSpec(c, s, result, false, true, s.retryCount).state.finished
             && MergeRetryHandleSpec(c, s, result, false, true, s.retryCount).state.base.None?)
    ensures MergeRetryHandleSpec(c, s, result, false, true, s.retryCount).state.retryCount == s.retryCount + 1 ==>
      Measure(c, MergeRetryHandleSpec(c, s, result, false, true, s.retryCount).state) < Measure(c, s)
  {
    if s.retryMergeIndex == s.retryCount - 1 {
      MergeResultFacts(c, s.(retryMergeIndex := s.retryCount), result, s.retryCount);
    }
  }

  /** How `get()` ends: with a result, by throwing, or by calling itself again
      on the same round without end (a finished future that has no base). */
  datatype GetOutcome = Delivers(result: PutRecordsResult) | Throws(error: Exception) | RecursesForever

  datatype Got = Got(state: FutureState, outcome: GetOutcome)

  /** `get()`: wait for the future of round `retryCount` (`replies` gives what
      each round's future completes with) and hand its result to
      `mergeRetryHandle` holding the lock; a merged result is returned, and
      `null` means the next round was submitted, so `get()` calls itself again.
      Each call remembers the round it was entered at, and each nested call
      runs inside the `try` of the call that made it. */
  function GetSpec(c: Config, s: FutureState, replies: nat -> AsyncReply): Got
    requires Good(c, s)
  {
    GetPasses(c, s, replies, s.retryCount)
  }

  /** The passes of a `get()` entered at round `entry`. A failed future makes
      every enclosing call's `catch` run on the way out: only the one entered
      at round 0 acts, with `mergeException(e, 0)`, and turns the failure into
      the base result when there is one; every other failure is rethrown. An
      exception raised while folding is not caught by that `catch`. */
  function GetPasses(c: Config, s: FutureState, replies: nat -> AsyncReply, entry: nat): Got
    requires Good(c, s)
    decreases Measure(c, s)
  {
    match replies(s.retryCount)
    case Failed(e) =>
      if entry == 0 then
        var x := MergeExceptionSpec(s, 0);
        Got(x.state, if x.newest.Some? then Delivers(x.newest.value) else Throws(e))
      else Got(s, Throws(e))
    case Completed(res) =>
      var h := MergeRetryHandleSpec(c, s, res, false, true, s.retryCount);
      match h.merged
      case Threw(e) => Got(h.state, Throws(e))
      case Newest(m) => Got(h.state, Delivers(m))
      case Null =>
        HandleKeepsGood(c, s, res, false, true, s.retryCount);
        GetStepAdvances(c, s, res);
        if h.state.retryCount == s.retryCount then Got(h.state, RecursesForever)
        else GetPasses(c, h.state, replies, entry)
  }

  /** The fold stops exactly at the first entry that does not fold. */
  lemma FoldLimitAt(c: Config, idx: Option<seq<nat>>, entries: seq<ResultEntry>, canRetry: bool,
                    slots: nat, r: nat, i: nat)
    requires i <= |entries|
    requires forall j :: 0 <= j < i ==> FoldsAt(c, idx, entries, canRetry, slots, r, j)
    requires i < |entries| ==> !FoldsAt(c, idx, entries, canRetry, slots, r, i)
    ensures FoldLimit(c, idx, entries, canRetry, slots, r, 0) == i
  {
  }

  /** The loop of `mergeResult` over the entries of round r. */
  method FoldRound(c: Config, idx: Option<seq<nat>>, entries: seq<ResultEntry>, canRetry: bool,
                     slots0: seq<ResultEntry>, r: nat)
    returns (f: RoundFold)
    ensures f == FoldRoundSpec(c, idx, entries, canRetry, slots0, r)
  {
    var positions, batch, slots, successes := [], [], slots0, 0;
    var i := 0;
    while i < |entries|
      invariant 0 <= i <= |entries| && Covers(idx, i)
      invariant forall j :: 0 <= j < i ==> FoldsAt(c, idx, entries, canRetry, |slots0|, r, j)
      invariant slots == if r != 0 then SlotsWithin(c, idx, entries, canRetry, |slots0|, r, i);
                                       Overwrite(slots0, idx, entries, i)
                         else slots0
      invariant positions == Collected(c, idx, entries, canRetry, i)
      invariant AllBelow(positions, |c.records|) && batch == Pick(c.records, positions)
      invariant successes == Successes(entries, i)
    {
      var fits := !(idx.Some? && i >= |idx.value|);
      var originalIndex := 0;
      var entry := entries[i];
      var queue := false;
      if fits {
        originalIndex := if idx.None? then i else idx.value[i];
        queue := HasError(entry) && canRetry && c.retriable(entry.errorCode);
        fits := !(queue && originalIndex >= |c.records|) && !(r != 0 && originalIndex >= |slots|);
      }
      if !fits {
        FoldLimitAt(c, idx, entries, canRetry, |slots0|, r, i);
        return RoundFold(true, [], [], slots, 0);
      }
      assert FoldsAt(c, idx, entries, canRetry, |slots0|, r, i);
      if queue {
        PickSnoc(c.records, positions, originalIndex);
        positions := positions + [originalIndex];
        batch := batch + [c.records[originalIndex]];
      }
      if !HasError(entry) {
        successes := successes + 1;
      }
      if r != 0 {
        slots := slots[originalIndex := entry];
      }
      i := i + 1;
    }
    FoldLimitAt(c, idx, entries, canRetry, |slots0|, r, i);
    f := RoundFold(false, positions, batch, slots, successes);
  }

  /** `PutRecordsTrafficLimitRetryFuture`. `issued` records the batches handed
      to `innerPutRecordsAsync`; `folded` and `advanced` are the history of the
      two gates. */
  class RetryFuture {
    const config: Config
    var retryCount: nat
    var retryMergeIndex: int
    var finished: bool
    var base: Option<PutRecordsResult>
    var retryRecordIndex: Option<seq<nat>>
    var issued: seq<seq<Record>>
    ghost var folded: seq<nat>
    ghost var advanced: seq<nat>

    ghost function State(): FutureState
      reads this
    {
      FutureState(retryCount, retryMergeIndex, finished, base, retryRecordIndex, issued, folded, advanced)
    }

    /** The future `putRecordsAsync` creates, once it has submitted the whole batch. */
    constructor (records: seq<Record>, retries: int, retriable: Classifier)
      ensures config == Config(records, retries, retriable) && State() == Start(config)
    {
      config := Config(records, retries, retriable);
      retryCount, retryMergeIndex, finished := 0, -1, false;
      base, retryRecordIndex := None, None;
      issued := [records];
      folded, advanced := [], [];
    }

    method MergeResult(result: ServiceResult, r: nat) returns (fault: bool, positions: seq<nat>, batch: seq<Record>)
      modifies this
      ensures Fold(State(), fault, positions, batch) == MergeResultSpec(config, old(State()), result, r)
    {
      var current := if base.None? then result else base.value;
      folded := folded + [r];
      positions, batch := [], [];
      fault := false;
      if (r == 0 && result.failedRecordCount == 0) || config.retries == 0 {
        base, finished := Some(current), true;
        return;
      }
      var f := FoldRound(config, retryRecordIndex, result.records, r < config.retries, current.records, r);
      if f.fault {
        base, fault := Some(current.(records := f.slots)), true;
        return;
      }
      var failed := current.failedRecordCount;
      if r != 0 && f.successes > 0 {
        failed := failed - f.successes;
      }
      base, positions, batch := Some(PutRecordsResult(failed, f.slots)), f.positions, f.batch;
      if positions == [] {
        finished := true;
      }
    }

    method MergeRetryHandle(result: ServiceResult, tryLock: bool, lockAcquired: bool, r: nat) returns (merged: Merged)
      modifies this
      ensures Handled(State(), merged) == MergeRetryHandleSpec(config, old(State()), result, tryLock, lockAcquired, r)
    {
      var positions: seq<nat> := [];
      var batch: seq<Record> := [];
      if retryMergeIndex == r - 1 {
        retryMergeIndex := r;
        var fault;
        fault, positions, batch := MergeResult(result, r);
        if fault {
          return Threw(IndexOutOfBounds);
        }
      }
      if finished {
        return if base.Some? then Newest(base.value) else Null;
      }
      if tryLock && !lockAcquired {
        return Null;
      }
      if r != retryCount {
        return Null;
      }
      retryRecordIndex := Some(positions);
      retryCount := retryCount + 1;
      issued := issued + [batch];
      advanced := advanced + [r];
      return Null;
    }

    method MergeException(r: nat) returns (newest: Option<PutRecordsResult>)
      modifies this
      ensures Excepted(State(), newest) == MergeExceptionSpec(old(State()), r)
    {
      if retryMergeIndex == r - 1 {
        retryMergeIndex := r;
      }
      finished := true;
      newest := base;
    }

    method Get(replies: nat -> AsyncReply) returns (outcome: GetOutcome)
      requires Good(config, State())
      modifies this
      ensures Got(State(), outcome) == GetSpec(config, old(State()), replies)
    {
      // the round the outermost call was entered at; each pass of the loop is one nested call
      var entry := retryCount;
      while true
        invariant Good(config, State())
        invariant GetPasses(config, State(), replies, entry) == GetSpec(config, old(State()), replies)
        decreases Measure(config, State())
      {
        var getThreadRetryIndex := retryCount;
        match replies(getThreadRetryIndex) {
          case Failed(e) =>
            // the pass's own `catch` can act only if the outermost one does
            // (rounds only grow), and acting twice changes nothing more
            if entry == 0 {
              var exRes := MergeException(0);
              if exRes.Some? {
                return Delivers(exRes.value);
              }
            }
            return Throws(e);
          case Completed(res) =>
            ghost var s0 := State();
            var merged := MergeRetryHandle(res, false, true, getThreadRetryIndex);
            HandleKeepsGood(config, s0, res, false, true, getThreadRetryIndex);
            match merged {
              case Threw(e) =>
                return Throws(e);
              case Newest(m) =>
                return Delivers(m);
              case Null =>
                GetStepAdvances(config, s0, res);
                if retryCount == getThreadRetryIndex {
                  return RecursesForever;
                }
            }
        }
      }
    }
  }

  /** `PutRecordsTrafficLimitRetryCallback`: the handler of round `retryIndex`. */
  class RetryCallback {
    const future: RetryFuture
    const retryIndex: nat

    constructor (future: RetryFuture, retryIndex: nat)
      ensures this.future == future && this.retryIndex == retryIndex
    {
      this.future := future;
      this.retryIndex := retryIndex;
    }

    method OnError(e: Exception) returns (call: HandlerCall)
      modifies future
      ensures Callback(future.State(), call) == OnErrorSpec(old(future.State()), retryIndex, e)
    {
      var exRes := future.MergeException(retryIndex);
      if exRes.None? {
        call := UserError(e);
      } else {
        call := UserSuccess(exRes.value);
      }
    }

    method OnSuccess(result: ServiceResult, lockAcquired: bool) returns (call: HandlerCall)
      modifies future
      ensures Callback(future.State(), call)
           == OnSuccessSpec(future.config, old(future.State()), retryIndex, result, lockAcquired)
    {
      var merged := future.MergeRetryHandle(result, true, lockAcquired, retryIndex);
      match merged {
        case Null =>
          call := NoCall;
        case Newest(_) =>
          call := UserSuccess(result);
        case Threw(e) =>
          call := OnError(e);
      }
    }
  }
}
