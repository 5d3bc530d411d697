/** Values shared by the synchronous and the asynchronous batch-submission paths:
    the records of a put-records request, the per-record outcomes the service
    returns, and what one call of the transport can give back. */
module PutRecords {

  datatype Option<+T> = None | Some(value: T)

  /** `StringUtils.isNullOrEmpty` on an optional string. */
  predicate IsNullOrEmpty(s: Option<string>) {
    s.None? || s.value == ""
  }

  /** One record of a request (`PutRecordsRequestEntry`); the payload is opaque here. */
  datatype Record = Record(data: seq<bv8>, partitionKey: string)

  /** One per-record outcome (`PutRecordsResultEntry`), or `Unset`, the Java
      `null` a fresh `PutRecordsResultEntry[]` slot holds before it is written.
      The empty error code stands for a null or empty one: both mean the record
      was accepted. */
  datatype ResultEntry = ResultEntry(partitionId: string, sequenceNumber: string, errorCode: string) | Unset

  predicate HasError(e: ResultEntry) {
    e.ResultEntry? && e.errorCode != ""
  }

  /** No element of the list is `null`. */
  predicate NoUnset(entries: seq<ResultEntry>) {
    forall i :: 0 <= i < |entries| ==> entries[i].ResultEntry?
  }

  /** `PutRecordsResult`: the failed count the service reports and one entry per record. */
  datatype PutRecordsResult = PutRecordsResult(failedRecordCount: int, records: seq<ResultEntry>)

  /** A result as the service answers it: its list holds no `null`. */
  type ServiceResult = r: PutRecordsResult | NoUnset(r.records) witness PutRecordsResult(0, [])

  /** The exceptions the modelled code can raise or let through. */
  datatype Exception =
    | TransportFault(causedByHttpClientError: bool)  // thrown by the transport
    | IndexOutOfBounds                               // a reply longer than its index map
    | IllegalArgument                                // `new ArrayList<>(negative)`
    | NullPointer                                    // a `null` entry of a result list read

  /** What one call of the transport gives back. */
  datatype Reply = Thrown(error: Exception) | NullResult | Result(result: ServiceResult)

  /** The transport: the k-th call, with the records of its request. */
  type Transport = (nat, seq<Record>) -> Reply

  /** `isRecordsRetriableErrorCode`, which is not part of this model. */
  type Classifier = string -> bool

  /** Number of entries that carry an error code. */
  function CountErrors(s: seq<ResultEntry>): (n: nat)
    ensures n <= |s|
  {
    if |s| == 0 then 0
    else CountErrors(s[..|s| - 1]) + (if HasError(s[|s| - 1]) then 1 else 0)
  }

  /** The transport keeps its contract: one entry per submitted record. */
  ghost predicate HonoursLength(submit: Transport) {
    forall k: nat, batch: seq<Record> :: submit(k, batch).Result? ==>
      |submit(k, batch).result.records| == |batch|
  }

  /** The failed count the service reports is the number of entries with an error code. */
  ghost predicate ConsistentCounts(submit: Transport) {
    forall k: nat, batch: seq<Record> :: submit(k, batch).Result? ==>
      submit(k, batch).result.failedRecordCount == CountErrors(submit(k, batch).result.records)
  }

  predicate Increasing(s: seq<nat>) {
    forall a, b :: 0 <= a < b < |s| ==> s[a] < s[b]
  }

  predicate AllBelow(s: seq<nat>, n: nat) {
    forall a :: 0 <= a < |s| ==> s[a] < n
  }

  lemma IncreasingSnoc(s: seq<nat>, x: nat)
    requires Increasing(s) && forall a :: 0 <= a < |s| ==> s[a] < x
    ensures Increasing(s + [x])
  {
  }

  /** The elements of `s` at the positions `idx`, in the order of `idx`. */
  function Pick<T>(s: seq<T>, idx: seq<nat>): (r: seq<T>)
    requires AllBelow(idx, |s|)
    ensures |r| == |idx|
    ensures forall j :: 0 <= j < |idx| ==> r[j] == s[idx[j]]
  {
    seq(|idx|, j requires 0 <= j < |idx| => s[idx[j]])
  }

  lemma PickSnoc<T>(s: seq<T>, idx: seq<nat>, x: nat)
    requires AllBelow(idx, |s|) && x < |s|
    ensures AllBelow(idx + [x], |s|)
    ensures Pick(s, idx + [x]) == Pick(s, idx) + [s[x]]
  {
  }

  /** `s` is `t` with some elements left out, order kept. */
  predicate IsSubsequence<T(==)>(s: seq<T>, t: seq<T>)
    decreases |t|
  {
    |s| == 0 || (|t| > 0 && ((s[0] == t[0] && IsSubsequence(s[1..], t[1..])) || IsSubsequence(s, t[1..])))
  }

  lemma {:induction false} SubsequenceOfItself<T>(s: seq<T>)
    ensures IsSubsequence(s, s)
    decreases |s|
  {
    if |s| > 0 {
      SubsequenceOfItself(s[1..]);
    }
  }

  /** Positions moved one to the left. */
  function ShiftDown(w: seq<nat>): (r: seq<nat>)
    requires forall j :: 0 <= j < |w| ==> w[j] >= 1
    ensures |r| == |w| && forall j :: 0 <= j < |w| ==> r[j] == w[j] - 1
  {
    seq(|w|, j requires 0 <= j < |w| => w[j] - 1)
  }

  /** Picking at increasing positions keeps the order of the source. */
  lemma {:induction false} PickIsSubsequence<T>(t: seq<T>, w: seq<nat>)
    requires Increasing(w) && AllBelow(w, |t|)
    ensures IsSubsequence(Pick(t, w), t)
    decreases |t|
  {
    if |w| > 0 {
      if w[0] == 0 {
        var rest := ShiftDown(w[1..]);
        PickIsSubsequence(t[1..], rest);
        assert Pick(t, w)[1..] == Pick(t[1..], rest);
      } else {
        var all := ShiftDown(w);
        PickIsSubsequence(t[1..], all);
        assert Pick(t, w) == Pick(t[1..], all);
      }
    }
  }

  lemma PickOfPick<T>(t: seq<T>, v: seq<nat>, w: seq<nat>)
    requires AllBelow(v, |t|) && AllBelow(w, |v|)
    ensures AllBelow(Pick(v, w), |t|)
    ensures Pick(t, Pick(v, w)) == Pick(Pick(t, v), w)
  {
  }
}
