// BatchResourceBase: the shared part of the batching kernels. Inputs of
// many op invocations are queued as tasks, concatenated into one padded
// batch, run once, and the batched outputs are split back per task; a task
// too large for the open batch is split into smaller tasks first.
// Tensors keep only their rank and their rows along dimension 0.
module BatchResourceBase {
  import opened Common

  /** One row of a tensor along dimension 0 (its contents are opaque). */
  type Row = int

  /** A tensor: its rank and its rows along the 0th dimension. */
  datatype Tensor = Tensor(rank: nat, rows: seq<Row>)

  /** dim_size(0) */
  function Dim0(t: Tensor): nat { |t.rows| }

  /** A BatchTask: the invocation's guid, its input tensors, its position
      among the pieces of a split task, and whether it is such a piece. */
  datatype Task = Task(guid: int, inputs: seq<Tensor>, splitIndex: nat, isPartial: bool)

  /** BatchTask::size(): the 0th dimension of the first input. */
  function TaskSize(t: Task): nat
  {
    if |t.inputs| == 0 then 0 else Dim0(t.inputs[0])
  }

  /** The task sizes of a batch, in order. */
  function TaskSizes(batch: seq<Task>): (r: seq<int>)
    ensures |r| == |batch|
    ensures forall j :: 0 <= j < |batch| ==> r[j] == TaskSize(batch[j])
  {
    if batch == [] then [] else [TaskSize(batch[0])] + TaskSizes(batch[1..])
  }

  /** Batch::size(): the sum of the task sizes. */
  function BatchSize(batch: seq<Task>): int
  {
    Sum(TaskSizes(batch))
  }

  // ---------------------------------------------------------------------
  // Splitting and joining rows
  // ---------------------------------------------------------------------

  predicate AllNonNegative(sizes: seq<int>)
  {
    forall j :: 0 <= j < |sizes| ==> sizes[j] >= 0
  }

  lemma {:induction false} SumNonNegative(sizes: seq<int>)
    requires AllNonNegative(sizes)
    ensures Sum(sizes) >= 0
  {
    if sizes != [] {
      SumNonNegative(sizes[1..]);
    }
  }

  /** Rows cut into consecutive pieces of the given sizes. */
  function Pieces(rows: seq<Row>, sizes: seq<int>): (r: seq<seq<Row>>)
    requires AllNonNegative(sizes) && Sum(sizes) <= |rows|
    ensures |r| == |sizes|
    ensures forall j :: 0 <= j < |sizes| ==> |r[j]| == sizes[j]
  {
    if sizes == [] then []
    else
      SumNonNegative(sizes[1..]);
      [rows[..sizes[0]]] + Pieces(rows[sizes[0]..], sizes[1..])
  }

  /** The concatenation of a list of row sequences. */
  function Flatten(parts: seq<seq<Row>>): (r: seq<Row>)
  {
    if parts == [] then [] else parts[0] + Flatten(parts[1..])
  }

  function Lengths(parts: seq<seq<Row>>): (r: seq<int>)
    ensures |r| == |parts| && AllNonNegative(r)
    ensures forall j :: 0 <= j < |parts| ==> r[j] == |parts[j]|
  {
    if parts == [] then [] else [|parts[0]|] + Lengths(parts[1..])
  }

  lemma {:induction false} FlattenLength(parts: seq<seq<Row>>)
    ensures |Flatten(parts)| == Sum(Lengths(parts))
  {
    if parts != [] {
      FlattenLength(parts[1..]);
    }
  }

  /** Cutting rows and joining the pieces gives the rows back. */
  lemma {:induction false} FlattenPieces(rows: seq<Row>, sizes: seq<int>)
    requires AllNonNegative(sizes) && Sum(sizes) == |rows|
    ensures Flatten(Pieces(rows, sizes)) == rows
  {
    if sizes != [] {
      SumNonNegative(sizes[1..]);
      FlattenPieces(rows[sizes[0]..], sizes[1..]);
      assert rows == rows[..sizes[0]] + rows[sizes[0]..];
    }
  }

  /** Joining parts and cutting at their lengths gives the parts back. */
  lemma {:induction false} PiecesFlatten(parts: seq<seq<Row>>)
    ensures (FlattenLength(parts); Pieces(Flatten(parts), Lengths(parts)) == parts)
  {
    FlattenLength(parts);
    if parts != [] {
      var f := Flatten(parts);
      FlattenLength(parts[1..]);
      assert f[..|parts[0]|] == parts[0];
      assert f[|parts[0]|..] == Flatten(parts[1..]);
      assert Lengths(parts)[1..] == Lengths(parts[1..]);
      PiecesFlatten(parts[1..]);
    }
  }

  /** The same, when the rows carry extra rows at the end beyond the
      parts: cutting at the parts' lengths and one more size returns the
      parts first. */
  lemma {:induction false} PiecesFlattenPadded(parts: seq<seq<Row>>, extra: seq<Row>)
    ensures (FlattenLength(parts); var sizes := Lengths(parts) + [|extra|];
             SumAppend(Lengths(parts), |extra|);
             Pieces(Flatten(parts) + extra, sizes)[..|parts|] == parts)
  {
    FlattenLength(parts);
    SumAppend(Lengths(parts), |extra|);
    if parts != [] {
      var f := Flatten(parts) + extra;
      FlattenLength(parts[1..]);
      assert f[..|parts[0]|] == parts[0];
      assert f[|parts[0]|..] == Flatten(parts[1..]) + extra;
      assert (Lengths(parts) + [|extra|])[1..] == Lengths(parts[1..]) + [|extra|];
      PiecesFlattenPadded(parts[1..], extra);
    }
  }

  // ---------------------------------------------------------------------
  // Allowed batch sizes and queue options
  // ---------------------------------------------------------------------

  /** The position of the first allowed size that is at least the batch
      size. */
  function FirstAtLeast(allowed: seq<int>, batchSize: int): (r: Option<nat>)
    ensures r.Some? ==> r.value < |allowed| && allowed[r.value] >= batchSize
                        && forall j :: 0 <= j < r.value ==> allowed[j] < batchSize
    ensures r.None? ==> forall j :: 0 <= j < |allowed| ==> allowed[j] < batchSize
  {
    if allowed == [] then None
    else if allowed[0] >= batchSize then Some(0)
    else match FirstAtLeast(allowed[1..], batchSize)
      case None => None
      case Some(k) => Some(k + 1)
  }

  /** RoundToLowestAllowedBatchSize. */
  function RoundToLowestAllowedBatchSize(allowed: seq<int>, batchSize: int): (r: int)
  {
    match FirstAtLeast(allowed, batchSize)
    case None => batchSize
    case Some(k) => allowed[k]
  }

  /** The rounded size is the first allowed size that fits the batch; it is
      the batch size itself when no sizes are given or none fits. So the
      padding is never negative. */
  lemma RoundToLowestMeans(allowed: seq<int>, batchSize: int)
    ensures var r := RoundToLowestAllowedBatchSize(allowed, batchSize);
            r >= batchSize
            && (allowed == [] ==> r == batchSize)
            && ((forall j :: 0 <= j < |allowed| ==> allowed[j] < batchSize) ==> r == batchSize)
            && (forall k :: (0 <= k < |allowed| && allowed[k] >= batchSize
                             && (forall j :: 0 <= j < k ==> allowed[j] < batchSize)) ==> r == allowed[k])
  {
    var f := FirstAtLeast(allowed, batchSize);
    if f.Some? {
      forall k | 0 <= k < |allowed| && allowed[k] >= batchSize && (forall j :: 0 <= j < k ==> allowed[j] < batchSize)
        ensures k == f.value
      {
      }
    }
  }

  predicate Increasing(allowed: seq<int>)
  {
    forall i, j :: 0 <= i < j < |allowed| ==> allowed[i] < allowed[j]
  }

  /** BatcherT::QueueOptions as far as GetBatcherQueueOptions sets them;
      the split function is present only with splitting enabled. */
  datatype QueueOptions = QueueOptions(inputBatchSizeLimit: int, maxEnqueuedBatches: int,
                                       batchTimeoutMicros: int, enableLargeBatchSplitting: bool,
                                       hasSplitFunction: bool, maxExecutionBatchSize: Option<int>)

  /** GetBatcherQueueOptions: the limits are copied; with large-batch
      splitting the split function is installed and the largest execution
      batch is the last allowed size, or max_batch_size when none are
      given. */
  function GetBatcherQueueOptions(maxBatchSize: int, batchTimeoutMicros: int, maxEnqueuedBatches: int,
                                  allowed: seq<int>, enableSplitting: bool): (o: QueueOptions)
    ensures o.inputBatchSizeLimit == maxBatchSize && o.maxEnqueuedBatches == maxEnqueuedBatches
    ensures o.batchTimeoutMicros == batchTimeoutMicros && o.enableLargeBatchSplitting == enableSplitting
    ensures o.hasSplitFunction <==> enableSplitting
    ensures !enableSplitting ==> o.maxExecutionBatchSize.None?
    ensures enableSplitting && allowed == [] ==> o.maxExecutionBatchSize == Some(maxBatchSize)
    ensures enableSplitting && allowed != [] ==> o.maxExecutionBatchSize == Some(allowed[|allowed| - 1])
  {
    QueueOptions(maxBatchSize, maxEnqueuedBatches, batchTimeoutMicros, enableSplitting, enableSplitting,
                 if !enableSplitting then None
                 else if allowed == [] then Some(maxBatchSize)
                 else Some(allowed[|allowed| - 1]))
  }

  /** With splitting enabled and increasing allowed sizes, a batch that
      respects the largest execution batch size is padded to an allowed size
      no larger than it. */
  lemma PaddedWithinExecutionLimit(maxBatchSize: int, batchTimeoutMicros: int, maxEnqueuedBatches: int,
                                   allowed: seq<int>, batchSize: int)
    requires Increasing(allowed) && allowed != []
    requires batchSize <= GetBatcherQueueOptions(maxBatchSize, batchTimeoutMicros, maxEnqueuedBatches, allowed, true).maxExecutionBatchSize.value
    ensures var r := RoundToLowestAllowedBatchSize(allowed, batchSize);
            batchSize <= r <= allowed[|allowed| - 1] && r in allowed
  {
    var f := FirstAtLeast(allowed, batchSize);
    assert allowed[|allowed| - 1] >= batchSize;
    assert f.Some?;
    RoundToLowestMeans(allowed, batchSize);
    if f.value < |allowed| - 1 {
      assert allowed[f.value] < allowed[|allowed| - 1];
    }
  }

  // ---------------------------------------------------------------------
  // Registering inputs and validating batches
  // ---------------------------------------------------------------------

  /** The checks RegisterInput makes of an invocation's input tensors:
      each has rank at least 1, and with two or more tensors all have the
      0th dimension of the first. */
  predicate InputsAcceptable(tensors: seq<Tensor>)
  {
    forall k :: 0 <= k < |tensors| ==>
      tensors[k].rank >= 1 && (|tensors| >= 2 ==> Dim0(tensors[k]) == Dim0(tensors[0]))
  }

  /** RegisterInput's task construction: the inputs are checked in order
      and copied; any failed check is InvalidArgument. The task has the
      invocation's guid, split index 0 and is not partial. */
  method MakeTask(guid: int, tensors: seq<Tensor>) returns (r: Result<Task>)
    requires |tensors| >= 1
    ensures r.Success? <==> InputsAcceptable(tensors)
    ensures r.Failure? ==> r.code == InvalidArgument
    ensures r.Success? ==> r.value == Task(guid, tensors, 0, false) && TaskSize(r.value) == Dim0(tensors[0])
  {
    var inputs: seq<Tensor> := [];
    var k := 0;
    while k < |tensors|
      invariant 0 <= k <= |tensors| && inputs == tensors[..k]
      invariant forall j :: 0 <= j < k ==>
                  tensors[j].rank >= 1 && (|tensors| >= 2 ==> Dim0(tensors[j]) == Dim0(tensors[0]))
    {
      if tensors[k].rank == 0 {
        return Failure(InvalidArgument);
      }
      if |tensors| >= 2 && Dim0(tensors[k]) != Dim0(tensors[0]) {
        return Failure(InvalidArgument);
      }
      inputs := inputs + [tensors[k]];
      k := k + 1;
    }
    assert inputs == tensors;
    return Success(Task(guid, inputs, 0, false));
  }

  /** ValidateBatch: every task has as many inputs as the first;
      otherwise InvalidArgument. An empty batch is valid. */
  method ValidateBatch(batch: seq<Task>) returns (r: Code)
    ensures r == Ok <==> forall j :: 0 <= j < |batch| ==> |batch[j].inputs| == |batch[0].inputs|
    ensures r != Ok ==> r == InvalidArgument
  {
    var j := 0;
    while j < |batch|
      invariant 0 <= j <= |batch|
      invariant forall i :: 0 <= i < j ==> |batch[i].inputs| == |batch[0].inputs|
    {
      if |batch[j].inputs| != |batch[0].inputs| {
        return InvalidArgument;
      }
      j := j + 1;
    }
    return Ok;
  }

  /** The batcher queues of a resource, by name, each holding the tasks
      scheduled on it. */
  class BatchResource {
    var queues: map<string, seq<Task>>

    constructor()
      ensures queues == map[]
    {
      queues := map[];
    }

    /** LookupOrCreateBatcherQueue: an existing queue is used as it is;
        otherwise a new empty queue is added under the name, unless adding
        it fails (addStatus), which is reported with nothing changed. */
    method LookupOrCreateBatcherQueue(name: string, addStatus: Code) returns (r: Code)
      modifies this
      ensures name in old(queues) ==> r == Ok && queues == old(queues)
      ensures name !in old(queues) && addStatus == Ok ==> r == Ok && queues == old(queues)[name := []]
      ensures name !in old(queues) && addStatus != Ok ==> r == addStatus && queues == old(queues)
    {
      if name in queues {
        return Ok;
      }
      if addStatus != Ok {
        return addStatus;
      }
      queues := queues[name := []];
      return Ok;
    }

    /** RegisterInput: build the task, find or create the named queue, and
        schedule the task on it (scheduling appends it). */
    method RegisterInput(guid: int, tensors: seq<Tensor>, name: string, addStatus: Code) returns (r: Code)
      requires |tensors| >= 1
      modifies this
      ensures !InputsAcceptable(tensors) ==> r == InvalidArgument && queues == old(queues)
      ensures InputsAcceptable(tensors) && name !in old(queues) && addStatus != Ok ==>
                r == addStatus && queues == old(queues)
      ensures InputsAcceptable(tensors) && (name in old(queues) || addStatus == Ok) ==>
                r == Ok && name in queues
                && queues == old(queues)[name := (if name in old(queues) then old(queues)[name] else []) + [Task(guid, tensors, 0, false)]]
    {
      var t := MakeTask(guid, tensors);
      if t.Failure? {
        return t.code;
      }
      r := LookupOrCreateBatcherQueue(name, addStatus);
      if r != Ok {
        return r;
      }
      queues := queues[name := queues[name] + [t.value]];
    }
  }

  // ---------------------------------------------------------------------
  // Splitting a large task
  // ---------------------------------------------------------------------

  /** Chunks of at most maxBatchSize covering `left` rows. */
  function Chunks(left: int, maxBatchSize: int): (r: seq<int>)
    requires maxBatchSize > 0
    decreases left
  {
    if left <= 0 then [] else [Min(left, maxBatchSize)] + Chunks(left - maxBatchSize, maxBatchSize)
  }

  /** The chunks are positive, at most maxBatchSize, all but the last
      exactly maxBatchSize, and they add up to the rows covered. */
  lemma {:induction false} ChunksMeans(left: int, maxBatchSize: int)
    requires maxBatchSize > 0
    decreases left
    ensures var c := Chunks(left, maxBatchSize);
            (left > 0 ==> Sum(c) == left) && (left <= 0 ==> c == [])
            && (forall j :: 0 <= j < |c| ==> 0 < c[j] <= maxBatchSize)
            && (forall j :: 0 <= j < |c| - 1 ==> c[j] == maxBatchSize)
  {
    if left > 0 {
      ChunksMeans(left - maxBatchSize, maxBatchSize);
    }
  }

  /** The sizes SplitInputTask cuts a task into: the open batch's
      remaining slot first when positive, then chunks of at most
      max_batch_size. */
  function SplitSizes(inputSize: int, openSlot: int, maxBatchSize: int): (r: seq<int>)
    requires maxBatchSize > 0
  {
    (if openSlot > 0 then [openSlot] else []) + Chunks(inputSize - openSlot, maxBatchSize)
  }

  /** The split sizes are all positive and add up to the task size; the
      first fills the open slot when there is one, and the others are at
      most max_batch_size. */
  lemma SplitSizesMeans(inputSize: int, openSlot: int, maxBatchSize: int)
    requires maxBatchSize > 0 && 0 <= openSlot < inputSize
    ensures var s := SplitSizes(inputSize, openSlot, maxBatchSize);
            |s| >= 1 && Sum(s) == inputSize && AllNonNegative(s)
            && (forall j :: 0 <= j < |s| ==> s[j] > 0)
            && (openSlot > 0 ==> s[0] == openSlot)
            && (forall j :: (if openSlot > 0 then 1 else 0) <= j < |s| ==> s[j] <= maxBatchSize)
  {
    ChunksMeans(inputSize - openSlot, maxBatchSize);
    var c := Chunks(inputSize - openSlot, maxBatchSize);
    if openSlot > 0 {
      assert SplitSizes(inputSize, openSlot, maxBatchSize) == [openSlot] + c;
      assert ([openSlot] + c)[1..] == c;
    } else {
      assert SplitSizes(inputSize, openSlot, maxBatchSize) == c;
    }
  }

  /** The loop of SplitInputTask that computes the sizes. */
  method ComputeSplitSizes(inputSize: int, openSlot: int, maxBatchSize: int) returns (sizes: seq<int>)
    requires maxBatchSize > 0
    ensures sizes == SplitSizes(inputSize, openSlot, maxBatchSize)
  {
    sizes := [];
    if openSlot > 0 {
      sizes := sizes + [openSlot];
    }
    var left := inputSize - openSlot;
    while left > 0
      invariant sizes + Chunks(left, maxBatchSize) == SplitSizes(inputSize, openSlot, maxBatchSize)
      decreases left
    {
      AppendAssoc(sizes, [Min(left, maxBatchSize)], Chunks(left - maxBatchSize, maxBatchSize));
      sizes := sizes + [Min(left, maxBatchSize)];
      left := left - maxBatchSize;
    }
    assert sizes + [] == sizes;
  }

  /** Every input tensor of a task has the given number of rows. */
  predicate RowsEqual(inputs: seq<Tensor>, n: int)
  {
    forall k :: 0 <= k < |inputs| ==> |inputs[k].rows| == n
  }

  /** Piece j of every input tensor. */
  function PieceInputs(inputs: seq<Tensor>, sizes: seq<int>, j: nat): (r: seq<Tensor>)
    requires AllNonNegative(sizes) && RowsEqual(inputs, Sum(sizes)) && j < |sizes|
    ensures |r| == |inputs|
    ensures forall k :: 0 <= k < |inputs| ==> r[k] == Tensor(inputs[k].rank, Pieces(inputs[k].rows, sizes)[j])
  {
    if inputs == [] then []
    else [Tensor(inputs[0].rank, Pieces(inputs[0].rows, sizes)[j])] + PieceInputs(inputs[1..], sizes, j)
  }

  /** The task holding piece j of every input. */
  function SplitTask(input: Task, sizes: seq<int>, j: nat): (t: Task)
    requires AllNonNegative(sizes) && RowsEqual(input.inputs, Sum(sizes)) && j < |sizes|
  {
    Task(input.guid, PieceInputs(input.inputs, sizes, j), j, true)
  }

  /** SplitInputTask: the task is cut at the split sizes; output task j
      has the original guid, split index j, is partial, and holds piece j
      of every input tensor. The split of the tensors is exact, so the
      Internal errors for a failed split do not arise. */
  method SplitInputTask(input: Task, openSlot: int, maxBatchSize: int) returns (sizes: seq<int>, tasks: seq<Task>)
    requires maxBatchSize > 0 && 0 <= openSlot < TaskSize(input)
    requires RowsEqual(input.inputs, TaskSize(input))
    ensures sizes == SplitSizes(TaskSize(input), openSlot, maxBatchSize)
    ensures Sum(sizes) == TaskSize(input) && AllNonNegative(sizes)
    ensures |tasks| == |sizes|
    ensures forall j :: 0 <= j < |tasks| ==> tasks[j] == SplitTask(input, sizes, j)
  {
    sizes := ComputeSplitSizes(TaskSize(input), openSlot, maxBatchSize);
    SplitSizesMeans(TaskSize(input), openSlot, maxBatchSize);
    tasks := [];
    var j := 0;
    while j < |sizes|
      invariant 0 <= j <= |sizes| && |tasks| == j
      invariant forall i :: 0 <= i < j ==> tasks[i] == SplitTask(input, sizes, i)
    {
      tasks := tasks + [SplitTask(input, sizes, j)];
      j := j + 1;
    }
  }

  /** The rows of input k gathered across the split tasks, as the done
      callback of a split task concatenates its pieces' outputs. */
  function Column(tasks: seq<Task>, k: nat): (r: seq<seq<Row>>)
    requires forall j :: 0 <= j < |tasks| ==> k < |tasks[j].inputs|
    ensures |r| == |tasks|
    ensures forall j :: 0 <= j < |tasks| ==> r[j] == tasks[j].inputs[k].rows
  {
    if tasks == [] then [] else [tasks[0].inputs[k].rows] + Column(tasks[1..], k)
  }

  /** Splitting a task and concatenating the pieces of any input in split
      order gives that input back, and each piece task has its split size. */
  lemma SplitThenJoin(input: Task, openSlot: int, maxBatchSize: int, sizes: seq<int>, tasks: seq<Task>, k: nat)
    requires maxBatchSize > 0 && 0 <= openSlot < TaskSize(input)
    requires RowsEqual(input.inputs, TaskSize(input)) && k < |input.inputs|
    requires sizes == SplitSizes(TaskSize(input), openSlot, maxBatchSize)
    requires Sum(sizes) == TaskSize(input) && AllNonNegative(sizes)
    requires |tasks| == |sizes| && forall j :: 0 <= j < |tasks| ==> tasks[j] == SplitTask(input, sizes, j)
    ensures (forall j :: 0 <= j < |tasks| ==> |tasks[j].inputs| == |input.inputs|)
            && Flatten(Column(tasks, k)) == input.inputs[k].rows
    ensures forall j :: 0 <= j < |tasks| ==> TaskSize(tasks[j]) == sizes[j] && tasks[j].guid == input.guid
  {
    assert forall j :: 0 <= j < |tasks| ==> |tasks[j].inputs| == |input.inputs|;
    var p := Pieces(input.inputs[k].rows, sizes);
    forall j | 0 <= j < |tasks|
      ensures Column(tasks, k)[j] == p[j]
    {
      assert tasks[j].inputs[k] == Tensor(input.inputs[k].rank, p[j]);
    }
    assert Column(tasks, k) == p;
    FlattenPieces(input.inputs[k].rows, sizes);
  }

  // ---------------------------------------------------------------------
  // Index tensor
  // ---------------------------------------------------------------------

  /** One row of the index tensor: guid, first row and end row of a task
      in the batch. */
  datatype IndexRow = IndexRow(guid: int, start: int, end: int)

  /** The sum of the first j sizes. */
  function PrefixSum(sizes: seq<int>, j: nat): int
    requires j <= |sizes|
  {
    if j == 0 then 0 else PrefixSum(sizes, j - 1) + sizes[j - 1]
  }

  lemma {:induction false} PrefixSumIsSum(sizes: seq<int>, j: nat)
    requires j <= |sizes|
    ensures PrefixSum(sizes, j) == Sum(sizes[..j])
  {
    if j == 0 {
      assert sizes[..0] == [];
    } else {
      PrefixSumIsSum(sizes, j - 1);
      assert sizes[..j] == sizes[..j - 1] + [sizes[j - 1]];
      SumAppend(sizes[..j - 1], sizes[j - 1]);
    }
  }

  /** EmitIndexTensor's loop: for each task its guid and the running
      offset before and after its rows. */
  method EmitIndexTensor(batch: seq<Task>) returns (index: seq<IndexRow>)
    ensures |index| == |batch|
    ensures forall j :: 0 <= j < |batch| ==>
              index[j] == IndexRow(batch[j].guid, PrefixSum(TaskSizes(batch), j), PrefixSum(TaskSizes(batch), j + 1))
  {
    var sizes := TaskSizes(batch);
    index := [];
    var offset := 0;
    var j := 0;
    while j < |batch|
      invariant 0 <= j <= |batch| && |index| == j
      invariant offset == PrefixSum(sizes, j)
      invariant forall i :: 0 <= i < j ==> index[i] == IndexRow(batch[i].guid, PrefixSum(sizes, i), PrefixSum(sizes, i + 1))
    {
      assert PrefixSum(sizes, j + 1) == offset + TaskSize(batch[j]);
      index := index + [IndexRow(batch[j].guid, offset, offset + TaskSize(batch[j]))];
      offset := offset + TaskSize(batch[j]);
      j := j + 1;
    }
  }

  /** The index rows start at 0, each ends where the next begins, each
      spans its task's size, and the last ends at the batch size. */
  lemma IndexRowsContiguous(batch: seq<Task>, index: seq<IndexRow>)
    requires |index| == |batch|
    requires forall j :: 0 <= j < |batch| ==>
               index[j] == IndexRow(batch[j].guid, PrefixSum(TaskSizes(batch), j), PrefixSum(TaskSizes(batch), j + 1))
    ensures |batch| > 0 ==> index[0].start == 0 && index[|batch| - 1].end == BatchSize(batch)
    ensures forall j :: 0 <= j < |batch| - 1 ==> index[j].end == index[j + 1].start
    ensures forall j :: 0 <= j < |batch| ==> index[j].end - index[j].start == TaskSize(batch[j])
  {
    var sizes := TaskSizes(batch);
    forall j | 0 <= j < |batch|
      ensures index[j].start == PrefixSum(sizes, j) && index[j].end == PrefixSum(sizes, j + 1)
      ensures index[j].end - index[j].start == TaskSize(batch[j])
    {
      assert index[j] == IndexRow(batch[j].guid, PrefixSum(sizes, j), PrefixSum(sizes, j + 1));
      assert PrefixSum(sizes, j + 1) == PrefixSum(sizes, j) + sizes[j];
      assert sizes[j] == TaskSize(batch[j]);
    }
    if |batch| > 0 {
      PrefixSumIsSum(sizes, |batch|);
      assert sizes[..|batch|] == sizes;
    }
  }

  // ---------------------------------------------------------------------
  // Concatenating inputs and splitting outputs
  // ---------------------------------------------------------------------

  /** A batch whose tasks passed RegisterInput and ValidateBatch: every
      task has the first task's number of inputs, at least one, each with
      the task's row count. */
  predicate ValidBatch(batch: seq<Task>)
  {
    |batch| >= 1 && |batch[0].inputs| >= 1
    && forall j :: 0 <= j < |batch| ==>
         |batch[j].inputs| == |batch[0].inputs| && InputsAcceptable(batch[j].inputs)
         && RowsEqual(batch[j].inputs, TaskSize(batch[j]))
  }

  /** The rows of input i of every task, in task order. */
  function InputColumn(batch: seq<Task>, i: nat): (r: seq<seq<Row>>)
    requires forall j :: 0 <= j < |batch| ==> i < |batch[j].inputs|
    ensures |r| == |batch|
    ensures forall j :: 0 <= j < |batch| ==> r[j] == batch[j].inputs[i].rows
  {
    if batch == [] then [] else [batch[0].inputs[i].rows] + InputColumn(batch[1..], i)
  }

  /** n copies of a row. */
  function Repeat(row: Row, n: nat): (r: seq<Row>)
    ensures |r| == n && forall j :: 0 <= j < n ==> r[j] == row
  {
    if n == 0 then [] else [row] + Repeat(row, n - 1)
  }

  /** Input i of the batch concatenated over the tasks, padded with
      copies of the first row of the first task's input; padding needs
      that row, so an empty first input is InvalidArgument. */
  function ConcatInput(batch: seq<Task>, i: nat, padding: int): (r: Result<Tensor>)
    requires |batch| >= 1 && forall j :: 0 <= j < |batch| ==> i < |batch[j].inputs|
  {
    var first := batch[0].inputs[i];
    if padding > 0 && Dim0(first) == 0 then Failure(InvalidArgument)
    else
      Success(Tensor(first.rank, Flatten(InputColumn(batch, i)) + (if padding > 0 then Repeat(first.rows[0], padding) else [])))
  }

  /** The number of padding rows of a batch. */
  function Padding(allowed: seq<int>, batch: seq<Task>): int
  {
    RoundToLowestAllowedBatchSize(allowed, BatchSize(batch)) - BatchSize(batch)
  }

  /** ConcatInputTensors: an empty batch is InvalidArgument; otherwise
      each input is concatenated across the tasks and padded, and the first
      failure is returned. */
  method ConcatInputTensors(allowed: seq<int>, batch: seq<Task>) returns (r: Result<seq<Tensor>>)
    requires forall j :: 0 <= j < |batch| ==> |batch[j].inputs| == |batch[0].inputs|
    ensures |batch| == 0 ==> r == Failure(InvalidArgument)
    ensures |batch| > 0 ==>
              (r.Success? <==> forall i :: 0 <= i < |batch[0].inputs| ==> ConcatInput(batch, i, Padding(allowed, batch)).Success?)
    ensures r.Failure? ==> r.code == InvalidArgument
    ensures r.Success? ==> (|r.value| == |batch[0].inputs|
              && forall i :: 0 <= i < |r.value| ==> Success(r.value[i]) == ConcatInput(batch, i, Padding(allowed, batch)))
  {
    if |batch| == 0 {
      return Failure(InvalidArgument);
    }
    var padding := Padding(allowed, batch);
    var out: seq<Tensor> := [];
    var i := 0;
    while i < |batch[0].inputs|
      invariant 0 <= i <= |batch[0].inputs| && |out| == i
      invariant forall k :: 0 <= k < i ==> Success(out[k]) == ConcatInput(batch, k, padding)
    {
      var c := ConcatInput(batch, i, padding);
      if c.Failure? {
        return Failure(InvalidArgument);
      }
      out := out + [c.value];
      i := i + 1;
    }
    return Success(out);
  }

  /** The sizes the batched outputs are cut at: the task sizes, then the
      padding when positive. */
  function OutputSplitSizes(allowed: seq<int>, batch: seq<Task>): seq<int>
  {
    TaskSizes(batch) + (if Padding(allowed, batch) > 0 then [Padding(allowed, batch)] else [])
  }

  /** The checks SplitOutputTensors makes of one batched output. */
  function CheckOutput(allowed: seq<int>, batch: seq<Task>, out: Tensor): (c: Code)
    ensures c == Ok <==> out.rank >= 1 && Dim0(out) == BatchSize(batch) + Padding(allowed, batch)
  {
    if out.rank == 0 then FailedPrecondition
    else if Dim0(out) != BatchSize(batch) + Padding(allowed, batch) then FailedPrecondition
    else Ok
  }

  lemma TaskSizesNonNegative(batch: seq<Task>)
    ensures AllNonNegative(TaskSizes(batch))
  {
  }

  /** Output i cut at the split sizes, the padding piece dropped: one
      piece per task. */
  function OutputPieces(allowed: seq<int>, batch: seq<Task>, out: Tensor): (r: seq<Tensor>)
    requires CheckOutput(allowed, batch, out) == Ok
    ensures |r| == |batch|
  {
    var sizes := OutputSplitSizes(allowed, batch);
    TaskSizesNonNegative(batch);
    RoundToLowestMeans(allowed, BatchSize(batch));
    SumAppend(TaskSizes(batch), Padding(allowed, batch));
    assert TaskSizes(batch) + [] == TaskSizes(batch);
    var p := Pieces(out.rows, sizes);
    seq(|batch|, j requires 0 <= j < |batch| => Tensor(out.rank, p[j]))
  }

  /** SplitOutputTensors: an empty batch or a wrong number of outputs is
      Internal; an output of rank 0, or whose 0th dimension is not the
      padded batch size, is FailedPrecondition; otherwise output i is cut
      into one piece per task (result[i][j] is task j's output i). */
  method SplitOutputTensors(allowed: seq<int>, batch: seq<Task>, combined: seq<Tensor>, numOutputs: nat)
    returns (r: Result<seq<seq<Tensor>>>)
    ensures |batch| < 1 ==> r == Failure(Internal)
    ensures |batch| >= 1 && |combined| != numOutputs ==> r == Failure(Internal)
    ensures |batch| >= 1 && |combined| == numOutputs ==>
              (r.Success? <==> forall i :: 0 <= i < |combined| ==> CheckOutput(allowed, batch, combined[i]) == Ok)
              && (r.Failure? ==> r.code == FailedPrecondition)
    ensures r.Success? ==> (|r.value| == |combined|
              && forall i :: 0 <= i < |combined| ==>
                   CheckOutput(allowed, batch, combined[i]) == Ok
                   && r.value[i] == OutputPieces(allowed, batch, combined[i]))
  {
    if |batch| < 1 {
      return Failure(Internal);
    }
    if |combined| != numOutputs {
      return Failure(Internal);
    }
    var result: seq<seq<Tensor>> := [];
    var i := 0;
    while i < |combined|
      invariant 0 <= i <= |combined| && |result| == i
      invariant forall k :: 0 <= k < i ==>
                  CheckOutput(allowed, batch, combined[k]) == Ok && result[k] == OutputPieces(allowed, batch, combined[k])
    {
      var c := CheckOutput(allowed, batch, combined[i]);
      if c != Ok {
        return Failure(c);
      }
      result := result + [OutputPieces(allowed, batch, combined[i])];
      i := i + 1;
    }
    return Success(result);
  }

  /** Batching is transparent: if the batched computation passes its
      concatenated inputs through unchanged, then splitting the outputs
      gives every task exactly the rows of its own inputs. */
  lemma BatchingRoundTrip(allowed: seq<int>, batch: seq<Task>, i: nat, j: nat)
    requires ValidBatch(batch) && i < |batch[0].inputs| && j < |batch|
    requires ConcatInput(batch, i, Padding(allowed, batch)).Success?
    ensures var out := ConcatInput(batch, i, Padding(allowed, batch)).value;
            CheckOutput(allowed, batch, out) == Ok
            && OutputPieces(allowed, batch, out)[j].rows == batch[j].inputs[i].rows
  {
    var padding := Padding(allowed, batch);
    var out := ConcatInput(batch, i, padding).value;
    var parts := InputColumn(batch, i);
    var extra := if padding > 0 then Repeat(batch[0].inputs[i].rows[0], padding) else [];
    assert out.rows == Flatten(parts) + extra;
    assert Lengths(parts) == TaskSizes(batch) by {
      forall k | 0 <= k < |batch|
        ensures Lengths(parts)[k] == TaskSizes(batch)[k]
      {
        assert |batch[k].inputs[i].rows| == TaskSize(batch[k]);
      }
    }
    FlattenLength(parts);
    RoundToLowestMeans(allowed, BatchSize(batch));
    assert |out.rows| == BatchSize(batch) + padding;
    assert CheckOutput(allowed, batch, out) == Ok;
    PiecesFlattenPadded(parts, extra);
    if padding > 0 {
      assert OutputSplitSizes(allowed, batch) == Lengths(parts) + [|extra|];
    } else {
      assert extra == [];
      assert Flatten(parts) + extra == Flatten(parts);
      PiecesFlatten(parts);
      assert OutputSplitSizes(allowed, batch) == Lengths(parts);
    }
  }

  /** Every concatenated input has exactly the padded batch size of rows. */
  lemma ConcatRowsArePadded(allowed: seq<int>, batch: seq<Task>, i: nat)
    requires ValidBatch(batch) && i < |batch[0].inputs|
    requires ConcatInput(batch, i, Padding(allowed, batch)).Success?
    ensures Dim0(ConcatInput(batch, i, Padding(allowed, batch)).value) == RoundToLowestAllowedBatchSize(allowed, BatchSize(batch))
  {
    BatchingRoundTrip(allowed, batch, i, 0);
  }
}
