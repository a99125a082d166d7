// ParallelMapDataset: the tf.data transformation that applies a function to
// the elements of its input with up to `num_parallel_calls` invocations in
// flight, buffering their results in a deque. The runner thread fills the
// deque, GetNext takes results out of it, and completed calls mark their
// entry as notified. Threads, locks and condition variables are not modelled:
// each method is one critical section.
module ParallelMapDataset {
  import opened Common

  /** Tensors are opaque values here. */
  type Tensor = int

  /** model::kAutotune: the sentinel asking the runtime to pick the
      parallelism. */
  const Autotune: int := -1

  /** kUnknownCardinality. */
  const UnknownCardinality: int := -2

  // ---------------------------------------------------------------------
  // Dataset-level decisions
  // ---------------------------------------------------------------------

  /** MakeDataset accepts `num_parallel_calls` only when it is positive or
      the autotune sentinel; anything else is InvalidArgument. */
  function ValidateNumParallelCalls(n: int): (r: Code)
    ensures r == Ok <==> n > 0 || n == Autotune
    ensures r != Ok ==> r == InvalidArgument
  {
    if n > 0 || n == Autotune then Ok else InvalidArgument
  }

  /** The dataset's cardinality: the input's when the transformation is
      declared to preserve cardinality, unknown otherwise. */
  function Cardinality(preserveCardinality: bool, inputCardinality: int): (r: int)
    ensures preserveCardinality ==> r == inputCardinality
    ensures !preserveCardinality ==> r == UnknownCardinality
  {
    if preserveCardinality then inputCardinality else UnknownCardinality
  }

  /** The determinism policy attribute. */
  datatype Determinism = Deterministic | Nondeterministic | DefaultPolicy

  /** The kernel is version 1 exactly when it carries the `sloppy`
      attribute. */
  function OpVersion(hasSloppyAttr: bool): (v: nat)
    ensures v == 1 <==> hasSloppyAttr
    ensures v == 1 || v == 2
  {
    if hasSloppyAttr then 1 else 2
  }

  /** Version 1 derives the policy from `sloppy`: nondeterministic when
      sloppy, the default policy otherwise. */
  function PolicyFromSloppy(sloppy: bool): (p: Determinism)
    ensures p == Nondeterministic <==> sloppy
    ensures p != Deterministic
  {
    if sloppy then Nondeterministic else DefaultPolicy
  }

  /** The iterator runs in deterministic mode for the deterministic and the
      default policy. */
  predicate IteratorDeterministic(p: Determinism)
  {
    p.Deterministic? || p.DefaultPolicy?
  }

  /** A version-1 kernel delivers results in order exactly when it is not
      sloppy. */
  lemma SloppyMeansOutOfOrder(sloppy: bool)
    ensures IteratorDeterministic(PolicyFromSloppy(sloppy)) <==> !sloppy
  {
  }

  /** The parallelism Initialize settles on: the thread-pool size replaces
      the autotune sentinel. */
  function InitializedParallelism(n: int, threadPoolSize: int): (r: int)
    ensures n != Autotune ==> r == n
    ensures n == Autotune ==> r == threadPoolSize
  {
    if n == Autotune then threadPoolSize else n
  }

  /** A validated parallelism is at least one once initialized on a
      non-empty thread pool. */
  lemma ValidatedParallelismPositive(n: int, threadPoolSize: int)
    requires ValidateNumParallelCalls(n) == Ok && threadPoolSize >= 1
    ensures InitializedParallelism(n, threadPoolSize) >= 1
  {
  }

  // ---------------------------------------------------------------------
  // Invocation results and their processing
  // ---------------------------------------------------------------------

  /** One InvocationResult. The shared pointer's identity is the id; a fresh
      result has OK status, no values and end_of_input false. */
  datatype Invocation = Invocation(id: nat, notified: bool, status: Code, values: seq<Tensor>, endOfInput: bool)

  function Pending(id: nat): (r: Invocation)
    ensures r.id == id && !r.notified && r.status == Ok && r.values == [] && !r.endOfInput
  {
    Invocation(id, false, Ok, [], false)
  }

  /** What a finished call stores in its result before notifying it. */
  datatype CallResult = CallResult(status: Code, values: seq<Tensor>, endOfInput: bool)

  /** The outcome of the mapped function on one input element. */
  datatype FnResult = FnResult(status: Code, values: seq<Tensor>)

  /** CallFunction: the input's status and end-of-input flag are stored
      first; on end of input or an input error the call completes at once
      with no values. Otherwise the function runs and its status (the first
      error, starting from OK) and outputs are stored. */
  function CallFunction(inputStatus: Code, element: seq<Tensor>, inputEnd: bool, f: seq<Tensor> -> FnResult): (r: CallResult)
    ensures inputEnd || inputStatus != Ok ==> r == CallResult(inputStatus, [], inputEnd)
    ensures !inputEnd && inputStatus == Ok ==> r == CallResult(f(element).status, f(element).values, false)
  {
    if inputEnd || inputStatus != Ok then CallResult(inputStatus, [], inputEnd)
    else CallResult(f(element).status, f(element).values, false)
  }

  /** The result after CallCompleted: filled in and notified. */
  function Complete(inv: Invocation, c: CallResult): (r: Invocation)
    ensures r.id == inv.id && r.notified
    ensures r.status == c.status && r.values == c.values && r.endOfInput == c.endOfInput
  {
    inv.(notified := true, status := c.status, values := c.values, endOfInput := c.endOfInput)
  }

  /** What ProcessResult hands back: its status, the output tensors when
      it writes them, and the end_of_sequence flag when it writes it. */
  datatype Processed = Processed(status: Code, outTensors: Option<seq<Tensor>>, endOfSequence: Option<bool>)

  /** ProcessResult. An OK result that is not end-of-input delivers its
      values. An OutOfRange status becomes InvalidArgument when cardinality
      is preserved (so a caller cannot mistake it for end of sequence) and
      ends the sequence otherwise. Any other result reports its status and
      its end-of-input flag. */
  function ProcessResult(preserveCardinality: bool, inv: Invocation): (p: Processed)
    ensures p.outTensors.Some? <==> inv.status == Ok && !inv.endOfInput
    ensures p.outTensors.Some? ==> p == Processed(Ok, Some(inv.values), Some(false))
    ensures inv.status == OutOfRange && preserveCardinality ==> p == Processed(InvalidArgument, None, None)
    ensures inv.status == OutOfRange && !preserveCardinality ==> p == Processed(Ok, None, Some(true))
    ensures inv.status != OutOfRange && (inv.status != Ok || inv.endOfInput) ==>
              p == Processed(inv.status, None, Some(inv.endOfInput))
  {
    if !inv.endOfInput && inv.status == Ok then Processed(Ok, Some(inv.values), Some(false))
    else if inv.status == OutOfRange then
      (if preserveCardinality then Processed(InvalidArgument, None, None) else Processed(Ok, None, Some(true)))
    else Processed(inv.status, None, Some(inv.endOfInput))
  }

  /** An OutOfRange error of the function never escapes ProcessResult, and
      when cardinality is preserved the sequence ends only where the input
      ends, so the output has the input's cardinality. */
  lemma ProcessResultPreservesCardinality(preserveCardinality: bool, inv: Invocation)
    ensures ProcessResult(preserveCardinality, inv).status != OutOfRange
    ensures preserveCardinality && ProcessResult(preserveCardinality, inv).endOfSequence == Some(true) ==> inv.endOfInput
  {
  }

  /** End to end: a completed call delivers exactly the mapped function's
      outputs when the input element and the function both succeed; an
      OutOfRange raised by the function ends the sequence early only when
      cardinality is not preserved. */
  lemma {:induction false} MappedCallDelivers(preserveCardinality: bool, inv: Invocation, inputStatus: Code,
                                              element: seq<Tensor>, inputEnd: bool, f: seq<Tensor> -> FnResult)
    ensures var p := ProcessResult(preserveCardinality, Complete(inv, CallFunction(inputStatus, element, inputEnd, f)));
            (p.outTensors.Some? <==> inputStatus == Ok && !inputEnd && f(element).status == Ok)
            && (p.outTensors.Some? ==> p.outTensors.value == f(element).values)
            && (inputStatus == Ok && !inputEnd && f(element).status == OutOfRange ==>
                  p.endOfSequence == (if preserveCardinality then None else Some(true)))
            && (inputEnd && (inputStatus == Ok || inputStatus == OutOfRange) && !preserveCardinality ==>
                  p.endOfSequence == Some(true))
  {
    var c := CallFunction(inputStatus, element, inputEnd, f);
    var done := Complete(inv, c);
    var p := ProcessResult(preserveCardinality, done);
    assert done.status == c.status && done.endOfInput == c.endOfInput && done.values == c.values;
  }

  // ---------------------------------------------------------------------
  // The deque of results
  // ---------------------------------------------------------------------

  /** Result ids increase from the front of the deque to the back: the
      runner appends results in the order it schedules them. */
  predicate IdsIncreasing(buf: seq<Invocation>)
  {
    forall i, j :: 0 <= i < j < |buf| ==> buf[i].id < buf[j].id
  }

  /** A result the nondeterministic mode may hand out: it has been notified
      and is either at the front or not end-of-input. */
  predicate Available(buf: seq<Invocation>, k: nat)
    requires k < |buf|
  {
    buf[k].notified && (k == 0 || !buf[k].endOfInput)
  }

  /** The first available result at or after position i. */
  function FirstAvailableFrom(buf: seq<Invocation>, i: nat): (r: Option<nat>)
    requires i <= |buf|
    decreases |buf| - i
    ensures r.Some? ==> i <= r.value < |buf| && Available(buf, r.value)
    ensures r.Some? ==> forall j :: i <= j < r.value ==> !Available(buf, j)
    ensures r.None? ==> forall j :: i <= j < |buf| ==> !Available(buf, j)
  {
    if i == |buf| then None
    else if Available(buf, i) then Some(i)
    else FirstAvailableFrom(buf, i + 1)
  }

  /** The position ShouldWait takes a result from, if any: none once
      cancelled; the front in deterministic mode; the first available result
      otherwise. */
  function Selected(buf: seq<Invocation>, cancelled: bool, deterministic: bool): (r: Option<nat>)
    ensures r.Some? ==> r.value < |buf|
  {
    if cancelled then None
    else if deterministic then (if |buf| > 0 then Some(0) else None)
    else FirstAvailableFrom(buf, 0)
  }

  /** The selection rule in the system's own terms: deterministic mode is
      first-in first-out and waits only on an empty deque; nondeterministic
      mode takes the earliest notified result, but hands out an end-of-input
      result only from the front, and waits when no result qualifies. */
  lemma SelectionRule(buf: seq<Invocation>, cancelled: bool, deterministic: bool)
    ensures cancelled ==> Selected(buf, cancelled, deterministic).None?
    ensures !cancelled && deterministic ==>
              (Selected(buf, cancelled, deterministic).Some? <==> |buf| > 0)
              && (|buf| > 0 ==> Selected(buf, cancelled, deterministic) == Some(0))
    ensures !cancelled && !deterministic && Selected(buf, cancelled, deterministic).Some? ==>
              var k := Selected(buf, cancelled, deterministic).value;
              buf[k].notified && (buf[k].endOfInput ==> k == 0)
              && forall j :: 0 <= j < k ==> !buf[j].notified || (j > 0 && buf[j].endOfInput)
    ensures !cancelled && !deterministic && |buf| > 0 && buf[0].notified ==>
              Selected(buf, cancelled, deterministic) == Some(0)
    ensures !cancelled && !deterministic && Selected(buf, cancelled, deterministic).None? ==>
              forall j :: 0 <= j < |buf| ==> !buf[j].notified || (j > 0 && buf[j].endOfInput)
  {
    if !cancelled && !deterministic {
      var s := FirstAvailableFrom(buf, 0);
      var bound := if s.Some? then s.value else |buf|;
      forall j | 0 <= j < bound
        ensures !buf[j].notified || (j > 0 && buf[j].endOfInput)
      {
        assert !Available(buf, j);
      }
    }
  }

  /** The deque without position k, the others in order. */
  function RemoveAt(buf: seq<Invocation>, k: nat): (r: seq<Invocation>)
    requires k < |buf|
    ensures |r| == |buf| - 1
    ensures forall j :: 0 <= j < k ==> r[j] == buf[j]
    ensures forall j :: k <= j < |r| ==> r[j] == buf[j + 1]
  {
    buf[..k] + buf[k + 1..]
  }

  /** The deque after the call with the given id completed: that entry is
      filled in and notified, every other entry is unchanged. */
  function Completed(buf: seq<Invocation>, id: nat, c: CallResult): (r: seq<Invocation>)
    ensures |r| == |buf|
    ensures forall k :: 0 <= k < |buf| ==> r[k] == (if buf[k].id == id then Complete(buf[k], c) else buf[k])
  {
    seq(|buf|, k requires 0 <= k < |buf| => if buf[k].id == id then Complete(buf[k], c) else buf[k])
  }

  /** The ids of the calls one runner round schedules. */
  function FreshIds(start: nat, n: nat): (r: seq<nat>)
    ensures |r| == n
  {
    if n == 0 then [] else FreshIds(start, n - 1) + [start + n - 1]
  }


  /** The fresh results one runner round appends. */
  function FreshResults(start: nat, n: nat): (r: seq<Invocation>)
    ensures |r| == n
  {
    if n == 0 then [] else FreshResults(start, n - 1) + [Pending(start + n - 1)]
  }

  /** The j-th call of a round has id start + j and a fresh, pending
      result. */
  lemma {:induction false} FreshAt(start: nat, n: nat, j: nat)
    requires j < n
    ensures FreshIds(start, n)[j] == start + j
    ensures FreshResults(start, n)[j] == Pending(start + j)
  {
    if j < n - 1 {
      FreshAt(start, n - 1, j);
    }
  }

  /** How many calls one fill loop schedules: none when the runner is busy,
      otherwise until either the in-flight calls or the buffered results
      reach the parallelism. */
  function ScheduledCount(numCalls: int, buffered: nat, parallelism: int): (k: nat)
    ensures numCalls >= parallelism || buffered >= parallelism ==> k == 0
    ensures numCalls < parallelism && buffered < parallelism ==>
              k >= 1 && (numCalls + k == parallelism || buffered + k == parallelism)
              && numCalls + k <= parallelism && buffered + k <= parallelism
  {
    if numCalls >= parallelism || buffered >= parallelism then 0
    else Min(parallelism - numCalls, parallelism - buffered)
  }

  /** A checkpointed result: status code, return values and whether it was
      end-of-input (error messages are not modelled). */
  datatype SavedResult = SavedResult(code: Code, values: seq<Tensor>, endOfInput: bool)

  /** SaveInternal writes every buffered result in deque order. */
  function SaveResults(buf: seq<Invocation>): (r: seq<SavedResult>)
    ensures |r| == |buf|
    ensures forall k :: 0 <= k < |buf| ==> r[k] == SavedResult(buf[k].status, buf[k].values, buf[k].endOfInput)
  {
    seq(|buf|, k requires 0 <= k < |buf| => SavedResult(buf[k].status, buf[k].values, buf[k].endOfInput))
  }

  /** RestoreInternal rebuilds the deque with fresh, already notified
      results. */
  function RestoreResults(saved: seq<SavedResult>, start: nat): (r: seq<Invocation>)
    ensures |r| == |saved|
    ensures forall k :: 0 <= k < |saved| ==>
              r[k] == Invocation(start + k, true, saved[k].code, saved[k].values, saved[k].endOfInput)
  {
    seq(|saved|, k requires 0 <= k < |saved| => Invocation(start + k, true, saved[k].code, saved[k].values, saved[k].endOfInput))
  }

  /** Restoring a checkpoint and saving again gives the same checkpoint,
      and restoring a saved deque gives back every result's status, values
      and end-of-input flag, in order, all ready to be consumed. */
  lemma SaveRestoreRoundTrip(buf: seq<Invocation>, saved: seq<SavedResult>, start: nat)
    ensures SaveResults(RestoreResults(saved, start)) == saved
    ensures var r := RestoreResults(SaveResults(buf), start);
            |r| == |buf| && IdsIncreasing(r)
            && forall k :: 0 <= k < |buf| ==> r[k] == buf[k].(id := start + k, notified := true)
  {
    var s := SaveResults(RestoreResults(saved, start));
    assert |s| == |saved|;
    assert forall k :: 0 <= k < |saved| ==> s[k] == saved[k];
  }

  // ---------------------------------------------------------------------
  // The iterator
  // ---------------------------------------------------------------------

  /** The iterator's bookkeeping invariant: every call in flight is counted,
      ids are allocated in increasing order, and a buffered result is
      notified exactly when its call is no longer running. */
  ghost predicate Consistent(buf: seq<Invocation>, inFlight: set<nat>, numCalls: int, nextId: nat)
  {
    numCalls == |inFlight|
    && (forall x :: x in inFlight ==> x < nextId)
    && (forall k :: 0 <= k < |buf| ==> buf[k].id < nextId)
    && IdsIncreasing(buf)
    && (forall k :: 0 <= k < |buf| ==> (buf[k].notified <==> buf[k].id !in inFlight))
  }

  /** Scheduling one more call keeps the invariant. */
  lemma ConsistentSchedule(buf: seq<Invocation>, inFlight: set<nat>, numCalls: int, nextId: nat)
    requires Consistent(buf, inFlight, numCalls, nextId)
    ensures Consistent(buf + [Pending(nextId)], inFlight + {nextId}, numCalls + 1, nextId + 1)
  {
    assert nextId !in inFlight;
    var b := buf + [Pending(nextId)];
    forall k | 0 <= k < |b|
      ensures b[k].notified <==> b[k].id !in inFlight + {nextId}
    {
      if k < |buf| {
        assert b[k] == buf[k];
      }
    }
  }

  /** The fill loop so far: starting from deque b, in-flight set f0, c0
      calls and next id id0, it has scheduled the calls id0 .. id-1. */
  ghost predicate Filling(b: seq<Invocation>, f0: set<nat>, c0: int, id0: nat,
                          buf: seq<Invocation>, calls: seq<nat>, f: set<nat>, c: int, id: nat)
  {
    id0 <= id && buf == b + FreshResults(id0, id - id0) && calls == FreshIds(id0, id - id0)
    && c == c0 + (id - id0) && (forall x :: x in f <==> x in f0 || id0 <= x < id)
  }

  /** The count of a fill: while not busy one more call still fits in
      ScheduledCount, and once busy exactly ScheduledCount calls were
      made. */
  lemma FillingCount(b0: nat, c0: int, done: nat, n: int)
    ensures c0 + done < n && b0 + done < n && done <= ScheduledCount(c0, b0, n) ==>
              done + 1 <= ScheduledCount(c0, b0, n)
    ensures done <= ScheduledCount(c0, b0, n) && (c0 + done >= n || b0 + done >= n) ==>
              done == ScheduledCount(c0, b0, n)
  {
  }

  /** Scheduling one more call extends the fill by that call. */
  lemma FillingStep(b: seq<Invocation>, f0: set<nat>, c0: int, id0: nat,
                    buf: seq<Invocation>, calls: seq<nat>, f: set<nat>, c: int, id: nat)
    requires Filling(b, f0, c0, id0, buf, calls, f, c, id)
    ensures Filling(b, f0, c0, id0, buf + [Pending(id)], calls + [id], f + {id}, c + 1, id + 1)
  {
    AppendAssoc(b, FreshResults(id0, id - id0), [Pending(id)]);
  }


  /** One step of GetNextInternal: wait for the runner, report cancellation,
      block on a taken result that is still running (its completion is
      processed when it arrives), or process a taken, finished result. */
  datatype GetNextStep = MustWait | IteratorCancelled | AwaitingCompletion(id: nat) | Delivered(out: Processed)

  /** What one attempt of SaveInternal does: block until the in-flight
      calls complete, or write the checkpoint of the buffered results. */
  datatype SaveStep = SaveMustWait | Saved(results: seq<SavedResult>)

  /** One round of the runner thread: stop once cancelled, wait while busy,
      or schedule the listed calls. */
  datatype RunnerRound = RunnerStops | RunnerWaits | Scheduled(calls: seq<nat>)

  class MapIterator {
    const deterministic: bool
    const preserveCardinality: bool
    const autotune: bool
    /** num_parallel_calls_->value */
    var numParallelCalls: int
    /** num_calls_: the calls in flight */
    var numCalls: int
    /** invocation_results_ */
    var invocationResults: seq<Invocation>
    var cancelled: bool
    /** The id the next fresh result receives. */
    var nextId: nat
    /** The ids of the results whose call is still running. */
    ghost var inFlight: set<nat>

    /** Every call in flight is counted, ids are allocated in increasing
        order, and a buffered result is notified exactly when its call is no
        longer running. */
    ghost predicate Valid()
      reads this
    {
      Consistent(invocationResults, inFlight, numCalls, nextId)
    }

    /** The iterator of a dataset with the given parallelism, policy and
        cardinality flag. */
    constructor(datasetParallelCalls: int, policy: Determinism, preserve: bool)
      ensures Valid()
      ensures deterministic == IteratorDeterministic(policy)
      ensures preserveCardinality == preserve
      ensures autotune <==> datasetParallelCalls == Autotune
      ensures numParallelCalls == datasetParallelCalls
      ensures numCalls == 0 && invocationResults == [] && !cancelled
    {
      deterministic := IteratorDeterministic(policy);
      preserveCardinality := preserve;
      autotune := datasetParallelCalls == Autotune;
      numParallelCalls := datasetParallelCalls;
      numCalls := 0;
      invocationResults := [];
      cancelled := false;
      nextId := 0;
      inFlight := {};
    }

    /** Initialize replaces the autotune sentinel by the size of the
        runner thread pool. */
    method Initialize(threadPoolSize: int)
      modifies this`numParallelCalls
      ensures numParallelCalls == InitializedParallelism(old(numParallelCalls), threadPoolSize)
    {
      if numParallelCalls == Autotune {
        numParallelCalls := threadPoolSize;
      }
    }

    /** The runner is busy when the calls in flight or the buffered results
        have reached the parallelism. */
    predicate Busy()
      reads this
    {
      numCalls >= numParallelCalls || |invocationResults| >= numParallelCalls
    }

    /** CancelThreads (without waiting): the cancelled flag is set. */
    method CancelThreads()
      modifies this`cancelled
      ensures cancelled
    {
      cancelled := true;
    }

    /** The fill loop of the runner thread: while not busy, append a fresh
        result, remember it as a new call and count it in flight. It stops
        busy, having scheduled ScheduledCount calls, and a buffer within the
        parallelism stays within it. */
    method FillCalls() returns (newCalls: seq<nat>)
      requires Valid()
      modifies this`invocationResults, this`numCalls, this`nextId, this`inFlight
      ensures Valid() && Busy()
      ensures var k := ScheduledCount(old(numCalls), old(|invocationResults|), numParallelCalls);
              invocationResults == old(invocationResults) + FreshResults(old(nextId), k)
              && newCalls == FreshIds(old(nextId), k)
              && numCalls == old(numCalls) + k && nextId == old(nextId) + k
              && (forall x :: x in inFlight <==> x in old(inFlight) || old(nextId) <= x < nextId)
      ensures old(|invocationResults|) <= numParallelCalls ==> |invocationResults| <= numParallelCalls
    {
      ghost var c0, b0, id0 := numCalls, |invocationResults|, nextId;
      ghost var b, f0 := invocationResults, inFlight;
      ghost var total := ScheduledCount(c0, b0, numParallelCalls);
      newCalls := [];
      while !Busy()
        invariant Valid()
        invariant id0 <= nextId && nextId - id0 <= total
        invariant Filling(b, f0, c0, id0, invocationResults, newCalls, inFlight, numCalls, nextId)
        decreases numParallelCalls - numCalls
      {
        FillingStep(b, f0, c0, id0, invocationResults, newCalls, inFlight, numCalls, nextId);
        FillingCount(b0, c0, nextId - id0, numParallelCalls);
        newCalls := newCalls + [nextId];
        ScheduleOne();
      }
      FillingCount(b0, c0, nextId - id0, numParallelCalls);
    }

    /** One iteration of the fill loop: a fresh result is appended and its
        call counted in flight. */
    method ScheduleOne()
      requires Valid()
      modifies this`invocationResults, this`numCalls, this`nextId, this`inFlight
      ensures Valid()
      ensures invocationResults == old(invocationResults) + [Pending(old(nextId))]
      ensures numCalls == old(numCalls) + 1 && nextId == old(nextId) + 1
      ensures inFlight == old(inFlight) + {old(nextId)}
    {
      ConsistentSchedule(invocationResults, inFlight, numCalls, nextId);
      invocationResults := invocationResults + [Pending(nextId)];
      inFlight := inFlight + {nextId};
      numCalls := numCalls + 1;
      nextId := nextId + 1;
    }

    /** One round of RunnerThread: stop once cancelled, wait while busy,
        otherwise schedule calls until busy. */
    method RunnerStep() returns (r: RunnerRound)
      requires Valid()
      modifies this`invocationResults, this`numCalls, this`nextId, this`inFlight
      ensures Valid()
      ensures cancelled ==> r == RunnerStops && invocationResults == old(invocationResults) && numCalls == old(numCalls)
      ensures !cancelled && old(Busy()) ==> r == RunnerWaits && invocationResults == old(invocationResults) && numCalls == old(numCalls)
      ensures !cancelled && !old(Busy()) ==>
                var k := ScheduledCount(old(numCalls), old(|invocationResults|), numParallelCalls);
                k >= 1 && r == Scheduled(FreshIds(old(nextId), k))
                && invocationResults == old(invocationResults) + FreshResults(old(nextId), k)
                && numCalls == old(numCalls) + k && Busy()
    {
      if cancelled {
        return RunnerStops;
      }
      if Busy() {
        return RunnerWaits;
      }
      var calls := FillCalls();
      r := Scheduled(calls);
    }

    /** CallCompleted for the result with the given id: one call fewer in
        flight, and the result is filled in and notified wherever it is in
        the deque (GetNext may already have taken it). */
    method CallCompleted(id: nat, c: CallResult)
      requires Valid() && id in inFlight
      modifies this`invocationResults, this`numCalls, this`inFlight
      ensures Valid()
      ensures invocationResults == Completed(old(invocationResults), id, c)
      ensures numCalls == old(numCalls) - 1 && inFlight == old(inFlight) - {id}
    {
      invocationResults := Completed(invocationResults, id, c);
      numCalls := numCalls - 1;
      inFlight := inFlight - {id};
    }

    /** ShouldWait. Once cancelled it returns false and leaves the deque
        alone. In deterministic mode it pops the front result if there is
        one; otherwise it removes the first available result. It answers
        true (wait) exactly when nothing was taken. In deterministic mode
        the taken result was scheduled before every result still buffered. */
    method ShouldWait() returns (wait: bool, result: Option<Invocation>)
      requires Valid()
      modifies this`invocationResults
      ensures Valid()
      ensures var s := Selected(old(invocationResults), cancelled, deterministic);
              (wait <==> !cancelled && s.None?)
              && (s.None? ==> result == None && invocationResults == old(invocationResults))
              && (s.Some? ==> result == Some(old(invocationResults)[s.value])
                              && invocationResults == RemoveAt(old(invocationResults), s.value))
      ensures deterministic && result.Some? ==>
                forall k :: 0 <= k < |invocationResults| ==> result.value.id < invocationResults[k].id
    {
      if cancelled {
        return false, None;
      }
      if !deterministic {
        var i := 0;
        while i < |invocationResults|
          invariant 0 <= i <= |invocationResults|
          invariant FirstAvailableFrom(invocationResults, i) == FirstAvailableFrom(invocationResults, 0)
        {
          if invocationResults[i].notified && (i == 0 || !invocationResults[i].endOfInput) {
            result := Some(invocationResults[i]);
            ghost var b := invocationResults;
            invocationResults := invocationResults[..i] + invocationResults[i + 1..];
            RemovePreserves(b, i);
            return false, result;
          }
          i := i + 1;
        }
      } else if |invocationResults| > 0 {
        result := Some(invocationResults[0]);
        ghost var b := invocationResults;
        invocationResults := invocationResults[1..];
        RemovePreserves(b, 0);
        return false, result;
      }
      return true, None;
    }

    /** Removing a result keeps the class invariant. */
    lemma RemovePreserves(b: seq<Invocation>, k: nat)
      requires k < |b| && invocationResults == RemoveAt(b, k)
      requires numCalls == |inFlight| && (forall x :: x in inFlight ==> x < nextId)
      requires forall j :: 0 <= j < |b| ==> b[j].id < nextId
      requires IdsIncreasing(b)
      requires forall j :: 0 <= j < |b| ==> (b[j].notified <==> b[j].id !in inFlight)
      ensures Valid()
      ensures k == 0 ==> forall j :: 0 <= j < |invocationResults| ==> b[0].id < invocationResults[j].id
    {
      forall i, j | 0 <= i < j < |invocationResults|
        ensures invocationResults[i].id < invocationResults[j].id
      {
        var i' := if i < k then i else i + 1;
        var j' := if j < k then j else j + 1;
        assert invocationResults[i] == b[i'] && invocationResults[j] == b[j'];
      }
      if k == 0 {
        forall j | 0 <= j < |invocationResults|
          ensures b[0].id < invocationResults[j].id
        {
          assert invocationResults[j] == b[j + 1];
        }
      }
    }

    /** One step of GetNextInternal after the threads are started: ask
        ShouldWait; report cancellation; otherwise process the taken result
        if its call has finished, or wait for that call. */
    method GetNext() returns (step: GetNextStep)
      requires Valid()
      modifies this`invocationResults
      ensures Valid()
      ensures var s := Selected(old(invocationResults), cancelled, deterministic);
              (cancelled ==> step == IteratorCancelled && invocationResults == old(invocationResults))
              && (!cancelled && s.None? ==> step == MustWait && invocationResults == old(invocationResults))
              && (!cancelled && s.Some? ==>
                    var taken := old(invocationResults)[s.value];
                    invocationResults == RemoveAt(old(invocationResults), s.value)
                    && (taken.notified ==> step == Delivered(ProcessResult(preserveCardinality, taken)))
                    && (!taken.notified ==> step == AwaitingCompletion(taken.id) && taken.id in inFlight))
    {
      var wait, result := ShouldWait();
      if wait {
        return MustWait;
      }
      if cancelled {
        return IteratorCancelled;
      }
      var taken := result.value;
      if taken.notified {
        step := Delivered(ProcessResult(preserveCardinality, taken));
      } else {
        step := AwaitingCompletion(taken.id);
      }
    }

    /** SaveInternal: while calls are in flight it blocks on the condition
        variable until a completion wakes it, so the step must wait; with
        none in flight every buffered result is saved in order. The wait
        ends only when no call is in flight, so the FailedPrecondition test
        after it never fires and the model has no failure outcome. */
    method Save() returns (r: SaveStep)
      requires Valid()
      ensures r == SaveMustWait <==> numCalls != 0
      ensures numCalls == 0 ==> r == Saved(SaveResults(invocationResults))
    {
      if numCalls != 0 {
        return SaveMustWait;
      }
      return Saved(SaveResults(invocationResults));
    }

    /** RestoreInternal: the deque is replaced by the checkpointed results,
        each fresh and already notified. */
    method Restore(saved: seq<SavedResult>)
      requires Valid()
      modifies this`invocationResults, this`nextId
      ensures Valid()
      ensures invocationResults == RestoreResults(saved, old(nextId))
      ensures nextId == old(nextId) + |saved|
    {
      invocationResults := RestoreResults(saved, nextId);
      nextId := nextId + |saved|;
      assert forall x :: x in inFlight ==> x < old(nextId);
    }
  }
}
