/** The per-round fold both retry paths perform: entry i of a round belongs to
    original position `OriginalIndex(idx, i)`; it is written to that slot, and
    its position is queued for the next round when its error code is retriable. */
module RetryFold {
  import opened PutRecords

  /** An index map (`retryIndex` / `retryRecordIndex`) fit for a batch of n records. */
  predicate ValidMap(idx: Option<seq<nat>>, n: nat) {
    idx.Some? ==> Increasing(idx.value) && AllBelow(idx.value, n)
  }

  /** The index map has an entry for each of the first k entries of a round. */
  predicate Covers(idx: Option<seq<nat>>, k: nat) {
    idx.Some? ==> k <= |idx.value|
  }

  /** Original position of entry i of a round: i itself while no index map exists. */
  function OriginalIndex(idx: Option<seq<nat>>, i: nat): nat
    requires Covers(idx, i + 1)
  {
    if idx.None? then i else idx.value[i]
  }

  predicate RetriableError(e: ResultEntry, retriable: Classifier) {
    HasError(e) && retriable(e.errorCode)
  }

  /** Original positions, in round order, of the first k entries whose error is retriable. */
  function Queued(idx: Option<seq<nat>>, entries: seq<ResultEntry>, k: nat, retriable: Classifier): seq<nat>
    requires k <= |entries| && Covers(idx, k)
  {
    if k == 0 then []
    else Queued(idx, entries, k - 1, retriable)
         + (if RetriableError(entries[k - 1], retriable) then [OriginalIndex(idx, k - 1)] else [])
  }

  /** Number of the first k entries whose error is not retriable. */
  function Permanent(entries: seq<ResultEntry>, k: nat, retriable: Classifier): nat
    requires k <= |entries|
  {
    if k == 0 then 0
    else Permanent(entries, k - 1, retriable)
         + (if HasError(entries[k - 1]) && !retriable(entries[k - 1].errorCode) then 1 else 0)
  }

  /** Number of the first k entries without an error code. */
  function Successes(entries: seq<ResultEntry>, k: nat): nat
    requires k <= |entries|
  {
    if k == 0 then 0
    else Successes(entries, k - 1) + (if HasError(entries[k - 1]) then 0 else 1)
  }

  /** The slots after entries 0..k-1 have been written to their original positions. */
  function Overwrite(slots: seq<ResultEntry>, idx: Option<seq<nat>>, entries: seq<ResultEntry>, k: nat): (r: seq<ResultEntry>)
    requires k <= |entries| && Covers(idx, k)
    requires forall i :: 0 <= i < k ==> OriginalIndex(idx, i) < |slots|
    ensures |r| == |slots|
  {
    if k == 0 then slots
    else Overwrite(slots, idx, entries, k - 1)[OriginalIndex(idx, k - 1) := entries[k - 1]]
  }

  /** Number of the first k positions of a round whose slot holds an error. */
  function ErrorsAt(slots: seq<ResultEntry>, idx: Option<seq<nat>>, k: nat): nat
    requires Covers(idx, k)
    requires forall i :: 0 <= i < k ==> OriginalIndex(idx, i) < |slots|
  {
    if k == 0 then 0
    else ErrorsAt(slots, idx, k - 1) + (if HasError(slots[OriginalIndex(idx, k - 1)]) then 1 else 0)
  }

  /** Positions of a round are strictly increasing, so no slot is written twice in a round. */
  lemma PositionsIncrease(idx: Option<seq<nat>>, n: nat, a: nat, b: nat)
    requires ValidMap(idx, n) && Covers(idx, b + 1) && a < b
    ensures OriginalIndex(idx, a) < OriginalIndex(idx, b)
  {
  }

  /** Queue j of a round is the original position of round entry `Queued(None, ..)[j]`,
      which is one of the first k entries and carries a retriable error. */
  lemma {:induction false} QueuedSound(idx: Option<seq<nat>>, entries: seq<ResultEntry>, k: nat, retriable: Classifier)
    requires k <= |entries| && Covers(idx, k)
    ensures |Queued(idx, entries, k, retriable)| == |Queued(None, entries, k, retriable)|
    ensures forall j :: 0 <= j < |Queued(None, entries, k, retriable)| ==>
      Queued(None, entries, k, retriable)[j] < k
      && RetriableError(entries[Queued(None, entries, k, retriable)[j]], retriable)
      && Queued(idx, entries, k, retriable)[j] == OriginalIndex(idx, Queued(None, entries, k, retriable)[j])
  {
    if k > 0 {
      QueuedSound(idx, entries, k - 1, retriable);
    }
  }

  /** Every retriable entry of the round has its original position queued. */
  lemma {:induction false} QueuedComplete(idx: Option<seq<nat>>, entries: seq<ResultEntry>, k: nat, retriable: Classifier)
    requires k <= |entries| && Covers(idx, k)
    ensures forall i :: 0 <= i < k && RetriableError(entries[i], retriable) ==>
      OriginalIndex(idx, i) in Queued(idx, entries, k, retriable)
  {
    if k > 0 {
      QueuedComplete(idx, entries, k - 1, retriable);
    }
  }

  /** The queue holds each position once, in increasing order, all inside the batch. */
  lemma {:induction false} QueuedOrdered(idx: Option<seq<nat>>, n: nat, entries: seq<ResultEntry>, k: nat, retriable: Classifier)
    requires ValidMap(idx, n) && k <= |entries| && Covers(idx, k) && (idx.None? ==> k <= n)
    ensures Increasing(Queued(idx, entries, k, retriable)) && AllBelow(Queued(idx, entries, k, retriable), n)
  {
    if k > 0 {
      QueuedOrdered(idx, n, entries, k - 1, retriable);
      QueuedSound(idx, entries, k - 1, retriable);
      if RetriableError(entries[k - 1], retriable) {
        var rounds, q0 := Queued(None, entries, k - 1, retriable), Queued(idx, entries, k - 1, retriable);
        forall j | 0 <= j < |rounds|
          ensures q0[j] < OriginalIndex(idx, k - 1)
        {
          PositionsIncrease(idx, n, rounds[j], k - 1);
        }
        IncreasingSnoc(q0, OriginalIndex(idx, k - 1));
      }
    }
  }

  /** What the queue of a round holds: exactly the original positions of its
      retriable entries, each once, in increasing order, all inside the batch. */
  lemma QueuedFacts(idx: Option<seq<nat>>, n: nat, entries: seq<ResultEntry>, k: nat, retriable: Classifier)
    requires ValidMap(idx, n) && k <= |entries| && Covers(idx, k) && (idx.None? ==> k <= n)
    ensures Increasing(Queued(idx, entries, k, retriable)) && AllBelow(Queued(idx, entries, k, retriable), n)
    ensures |Queued(idx, entries, k, retriable)| == |Queued(None, entries, k, retriable)|
    ensures forall j :: 0 <= j < |Queued(None, entries, k, retriable)| ==>
      Queued(None, entries, k, retriable)[j] < k
      && RetriableError(entries[Queued(None, entries, k, retriable)[j]], retriable)
      && Queued(idx, entries, k, retriable)[j] == OriginalIndex(idx, Queued(None, entries, k, retriable)[j])
    ensures forall i :: 0 <= i < k && RetriableError(entries[i], retriable) ==>
      OriginalIndex(idx, i) in Queued(idx, entries, k, retriable)
  {
    QueuedSound(idx, entries, k, retriable);
    QueuedComplete(idx, entries, k, retriable);
    QueuedOrdered(idx, n, entries, k, retriable);
  }

  /** Every error of a round is either queued or counted as permanent. */
  lemma {:induction false} QueuedPlusPermanent(idx: Option<seq<nat>>, entries: seq<ResultEntry>, k: nat, retriable: Classifier)
    requires k <= |entries| && Covers(idx, k)
    ensures |Queued(idx, entries, k, retriable)| + Permanent(entries, k, retriable) == CountErrors(entries[..k])
    ensures Successes(entries, k) + CountErrors(entries[..k]) == k
  {
    if k > 0 {
      QueuedPlusPermanent(idx, entries, k - 1, retriable);
      assert entries[..k][..k - 1] == entries[..k - 1];
    }
  }

  /** Entry i of a round lands in slot `OriginalIndex(idx, i)`; slots no entry maps to are untouched. */
  lemma {:induction false} OverwriteFacts(slots: seq<ResultEntry>, idx: Option<seq<nat>>, entries: seq<ResultEntry>, k: nat)
    requires ValidMap(idx, |slots|) && k <= |entries| && Covers(idx, k)
    requires forall i :: 0 <= i < k ==> OriginalIndex(idx, i) < |slots|
    ensures forall i :: 0 <= i < k ==> Overwrite(slots, idx, entries, k)[OriginalIndex(idx, i)] == entries[i]
    ensures forall j :: 0 <= j < |slots| && (forall i :: 0 <= i < k ==> OriginalIndex(idx, i) != j) ==>
      Overwrite(slots, idx, entries, k)[j] == slots[j]
  {
    if k > 0 {
      OverwriteFacts(slots, idx, entries, k - 1);
      forall i | 0 <= i < k - 1 {
        PositionsIncrease(idx, |slots|, i, k - 1);
      }
    }
  }

  /** Replacing one element changes the error count by the difference of the two. */
  lemma {:induction false} CountErrorsUpdate(s: seq<ResultEntry>, j: nat, e: ResultEntry)
    requires j < |s|
    ensures CountErrors(s[j := e]) + (if HasError(s[j]) then 1 else 0)
         == CountErrors(s) + (if HasError(e) then 1 else 0)
  {
    var t := s[j := e];
    var n := |s| - 1;
    if j < n {
      CountErrorsUpdate(s[..n], j, e);
      assert t[..n] == s[..n][j := e];
    } else {
      assert t[..n] == s[..n];
    }
  }

  /** The slot the next entry of a round goes to has not been written earlier in the round. */
  lemma OverwriteUntouched(slots: seq<ResultEntry>, idx: Option<seq<nat>>, entries: seq<ResultEntry>, k: nat)
    requires ValidMap(idx, |slots|) && k < |entries| && Covers(idx, k + 1)
    requires forall i :: 0 <= i <= k ==> OriginalIndex(idx, i) < |slots|
    ensures Overwrite(slots, idx, entries, k)[OriginalIndex(idx, k)] == slots[OriginalIndex(idx, k)]
  {
    OverwriteFacts(slots, idx, entries, k);
    forall i | 0 <= i < k
      ensures OriginalIndex(idx, i) != OriginalIndex(idx, k)
    {
      PositionsIncrease(idx, |slots|, i, k);
    }
  }

  /** Error bookkeeping of a fold: the slots lose the errors they held at the
      round's positions and gain the errors of the round's entries. */
  lemma {:induction false} OverwriteErrors(slots: seq<ResultEntry>, idx: Option<seq<nat>>, entries: seq<ResultEntry>, k: nat)
    requires ValidMap(idx, |slots|) && k <= |entries| && Covers(idx, k)
    requires forall i :: 0 <= i < k ==> OriginalIndex(idx, i) < |slots|
    ensures CountErrors(Overwrite(slots, idx, entries, k)) + ErrorsAt(slots, idx, k)
         == CountErrors(slots) + CountErrors(entries[..k])
  {
    if k > 0 {
      OverwriteErrors(slots, idx, entries, k - 1);
      OverwriteUntouched(slots, idx, entries, k - 1);
      CountErrorsUpdate(Overwrite(slots, idx, entries, k - 1), OriginalIndex(idx, k - 1), entries[k - 1]);
      assert entries[..k][..k - 1] == entries[..k - 1];
    }
  }

  /** When every position of a round holds an error, the round's positions carry k errors. */
  lemma {:induction false} ErrorsAtAll(slots: seq<ResultEntry>, idx: Option<seq<nat>>, k: nat)
    requires Covers(idx, k)
    requires forall i :: 0 <= i < k ==> OriginalIndex(idx, i) < |slots| && HasError(slots[OriginalIndex(idx, i)])
    ensures ErrorsAt(slots, idx, k) == k
  {
    if k > 0 {
      ErrorsAtAll(slots, idx, k - 1);
    }
  }

  /** Unwritten slots hold no error. */
  lemma {:induction false} ErrorsAtNone(slots: seq<ResultEntry>, idx: Option<seq<nat>>, k: nat)
    requires Covers(idx, k)
    requires forall i :: 0 <= i < k ==> OriginalIndex(idx, i) < |slots| && !HasError(slots[OriginalIndex(idx, i)])
    ensures ErrorsAt(slots, idx, k) == 0
  {
    if k > 0 {
      ErrorsAtNone(slots, idx, k - 1);
    }
  }

  lemma {:induction false} CountErrorsNone(s: seq<ResultEntry>)
    requires forall j :: 0 <= j < |s| ==> !HasError(s[j])
    ensures CountErrors(s) == 0
  {
    if |s| > 0 {
      CountErrorsNone(s[..|s| - 1]);
    }
  }

  /** When every entry of a round carries a retriable error, every one of them is queued. */
  lemma {:induction false} AllQueued(idx: Option<seq<nat>>, entries: seq<ResultEntry>, k: nat, retriable: Classifier)
    requires k <= |entries| && Covers(idx, k)
    requires forall i :: 0 <= i < k ==> RetriableError(entries[i], retriable)
    ensures |Queued(idx, entries, k, retriable)| == k && Permanent(entries, k, retriable) == 0
    ensures CountErrors(entries[..k]) == k
  {
    if k > 0 {
      AllQueued(idx, entries, k - 1, retriable);
      assert entries[..k][..k - 1] == entries[..k - 1];
    }
  }
}
