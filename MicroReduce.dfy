// The TFLite Micro reduction kernels MEAN and REDUCE_MAX: their Prepare
// checks and scratch requests, the resolution of the axis list into the
// four-slot Mean parameters, the restricted Mean that only handles 4-D
// inputs reduced over axes 1 and 2, and the max reduction with its int8
// output rescaling.
module MicroReduce {
  import opened Common
  import opened LiteUtil

  const MaxNumberOfAxis: int := 4
  const MaxNumberOfReducedAxis: int := 2

  datatype Status = TfLiteOk | TfLiteError

  /** What the kernels read of a tensor: element type, quantization scale
      and dims (null for an axis tensor without them). */
  datatype TensorInfo = TensorInfo(ttype: TfLiteType, scale: real, dims: Option<seq<int>>)

  /** static_cast<int16_t>: wraps into [-32768, 32767]. */
  function Int16(x: int): (r: int)
    ensures -32768 <= r < 32768
    ensures (r - x) % 65536 == 0
    ensures -32768 <= x < 32768 ==> r == x
  {
    (x + 32768) % 65536 - 32768
  }

  /** The number of axes an axis tensor gives: one when its dims are null
      (a scalar), otherwise its element count. */
  function NumAxis(axisDims: Option<seq<int>>): int
  {
    if axisDims.None? then 1 else Product(axisDims.value)
  }

  // ---------------------------------------------------------------------
  // ResolveAxis
  // ---------------------------------------------------------------------

  /** The Mean parameters: four axis slots and the number in use. */
  class MeanParams {
    var axisCount: int
    const axis: array<int>

    constructor ()
      ensures axis.Length == MaxNumberOfAxis && fresh(axis)
    {
      axis := new int[MaxNumberOfAxis];
    }
  }

  function Int16All(s: seq<int>): (r: seq<int>)
    ensures |r| == |s|
    ensures forall i :: 0 <= i < |s| ==> r[i] == Int16(s[i])
  {
    if |s| == 0 then [] else [Int16(s[0])] + Int16All(s[1..])
  }

  /** The four slots ResolveAxis leaves: the first axisCount axes narrowed to
      16 bits, then 1 in each remaining slot. */
  function ResolvedAxes(axisData: seq<int>, axisCount: int): seq<int>
    requires 0 <= axisCount <= MaxNumberOfAxis && axisCount <= |axisData|
  {
    Int16All(axisData[..axisCount]) + Ones(MaxNumberOfAxis - axisCount)
  }

  /** Slot by slot: an axis copied from the data below axisCount, 1 above. */
  lemma ResolvedAxesAt(axisData: seq<int>, axisCount: int, i: int)
    requires 0 <= axisCount <= MaxNumberOfAxis && axisCount <= |axisData|
    requires 0 <= i < MaxNumberOfAxis
    ensures |ResolvedAxes(axisData, axisCount)| == MaxNumberOfAxis
    ensures ResolvedAxes(axisData, axisCount)[i] == if i < axisCount then Int16(axisData[i]) else 1
  {
  }

  /** ResolveAxis: copies the axis data into the slots and pads with 1
      (corrected: only for at most four axes; see SlotsWritten). */
  method ResolveAxis(axisData: seq<int>, axisCount: int, opParams: MeanParams)
    requires 0 <= axisCount <= MaxNumberOfAxis && axisCount <= |axisData|
    requires opParams.axis.Length == MaxNumberOfAxis
    modifies opParams, opParams.axis
    ensures opParams.axisCount == axisCount
    ensures opParams.axis[..] == ResolvedAxes(axisData, axisCount)
  {
    var i := 0;
    while i < axisCount
      invariant 0 <= i <= axisCount
      invariant forall k :: 0 <= k < i ==> opParams.axis[k] == Int16(axisData[k])
      modifies opParams.axis
    {
      opParams.axis[i] := Int16(axisData[i]);
      i := i + 1;
    }
    while i < MaxNumberOfAxis
      invariant axisCount <= i <= MaxNumberOfAxis
      invariant forall k :: 0 <= k < axisCount ==> opParams.axis[k] == Int16(axisData[k])
      invariant forall k :: axisCount <= k < i ==> opParams.axis[k] == 1
      modifies opParams.axis
    {
      opParams.axis[i] := 1;
      i := i + 1;
    }
    opParams.axisCount := axisCount;
    forall k | 0 <= k < MaxNumberOfAxis
      ensures opParams.axis[k] == ResolvedAxes(axisData, axisCount)[k]
    {
      ResolvedAxesAt(axisData, axisCount, k);
    }
  }

  /** The slots the first loop of ResolveAxis writes, as written: from i
      while i < axisCount. */
  function CopyLoopSlots(i: int, axisCount: int): seq<int>
    decreases axisCount - i
  {
    if i < axisCount then [i] + CopyLoopSlots(i + 1, axisCount) else []
  }

  /** The slots the second loop writes, as written: from where the first
      loop stopped while i < 4. */
  function PadLoopSlots(i: int): seq<int>
    decreases MaxNumberOfAxis - i
  {
    if i < MaxNumberOfAxis then [i] + PadLoopSlots(i + 1) else []
  }

  /** Every slot index the source's ResolveAxis writes, in order, for a
      non-negative axis count and no bound on it. */
  function ResolveAxisSlots(axisCount: nat): seq<int>
  {
    CopyLoopSlots(0, axisCount) + PadLoopSlots(axisCount)
  }

  /** As written, the two loops of ResolveAxis write slots 0 up to the larger
      of axisCount and 4, whatever axisCount is. */
  function SlotsWritten(axisCount: int): int
  {
    Max(axisCount, MaxNumberOfAxis)
  }

  lemma {:induction false} CopyLoopSlotsAre(i: nat, axisCount: nat)
    requires i <= axisCount
    ensures |CopyLoopSlots(i, axisCount)| == axisCount - i
    ensures forall k :: 0 <= k < axisCount - i ==> CopyLoopSlots(i, axisCount)[k] == i + k
    decreases axisCount - i
  {
    if i < axisCount {
      CopyLoopSlotsAre(i + 1, axisCount);
    }
  }

  lemma {:induction false} PadLoopSlotsAre(i: nat)
    ensures |PadLoopSlots(i)| == Max(MaxNumberOfAxis - i, 0)
    ensures forall k :: 0 <= k < |PadLoopSlots(i)| ==> PadLoopSlots(i)[k] == i + k
    decreases MaxNumberOfAxis - i
  {
    if i < MaxNumberOfAxis {
      PadLoopSlotsAre(i + 1);
    }
  }

  /** The loops write slots 0, 1, ... in order, SlotsWritten of them. */
  lemma ResolveAxisSlotsCount(axisCount: nat)
    ensures |ResolveAxisSlots(axisCount)| == SlotsWritten(axisCount)
    ensures forall k :: 0 <= k < |ResolveAxisSlots(axisCount)| ==> ResolveAxisSlots(axisCount)[k] == k
  {
    CopyLoopSlotsAre(0, axisCount);
    PadLoopSlotsAre(axisCount);
  }

  /** The source's loops stay inside the four-slot axis array exactly when
      there are at most four axes. */
  lemma ResolveAxisInBounds(axisCount: nat)
    ensures (forall k :: 0 <= k < |ResolveAxisSlots(axisCount)| ==>
               0 <= ResolveAxisSlots(axisCount)[k] < MaxNumberOfAxis)
            <==> axisCount <= MaxNumberOfAxis
  {
    ResolveAxisSlotsCount(axisCount);
    if axisCount > MaxNumberOfAxis {
      assert ResolveAxisSlots(axisCount)[MaxNumberOfAxis] == MaxNumberOfAxis;
    }
  }

  /** An axis tensor of five elements makes the source write a fifth slot,
      past the end of the four-slot axis array, before Mean checks the
      axis count. */
  lemma FiveAxesOverflow()
    ensures MaxNumberOfAxis in ResolveAxisSlots(5)
    ensures SlotsWritten(5) > MaxNumberOfAxis
  {
    ResolveAxisSlotsCount(5);
    assert ResolveAxisSlots(5)[MaxNumberOfAxis] == MaxNumberOfAxis;
  }

  // ---------------------------------------------------------------------
  // EvalMean
  // ---------------------------------------------------------------------

  /** The only Mean the kernel runs: a float32 4-D input reduced over the
      two axes 1 and 2 (either order, after narrowing to 16 bits); without
      keep_dims the general reference Mean must also succeed. */
  predicate MeanAccepted(inputType: TfLiteType, inputRank: int, axes: seq<int>, keepDims: bool, referenceOk: bool)
  {
    inputType == Float32 && inputRank == 4 && |axes| == 2 &&
    ((Int16(axes[0]) == 1 && Int16(axes[1]) == 2) || (Int16(axes[0]) == 2 && Int16(axes[1]) == 1)) &&
    (keepDims || referenceOk)
  }

  /** EvalMean, with the result of the general reference Mean (used without
      keep_dims) as a parameter. The computation itself is the reference
      kernel's; the model states which calls succeed. Corrected: more than
      four axes are rejected before they are resolved. */
  method EvalMean(input: TensorInfo, inputRank: int, axis: TensorInfo, axisData: seq<int>,
                  keepDims: bool, referenceOk: bool) returns (status: Status)
    requires 0 <= NumAxis(axis.dims) <= |axisData|
    ensures status == TfLiteOk <==>
            MeanAccepted(input.ttype, inputRank, axisData[..NumAxis(axis.dims)], keepDims, referenceOk)
  {
    var numAxis := NumAxis(axis.dims);
    if input.ttype != Float32 {
      return TfLiteError;
    }
    if numAxis > MaxNumberOfAxis {
      return TfLiteError;
    }
    var opParams := new MeanParams();
    ResolveAxis(axisData, numAxis, opParams);
    ResolvedAxesAt(axisData, numAxis, 0);
    ResolvedAxesAt(axisData, numAxis, 1);
    var isValidInputs := inputRank == 4 && opParams.axisCount == 2 &&
                         ((opParams.axis[0] == 1 && opParams.axis[1] == 2) ||
                          (opParams.axis[0] == 2 && opParams.axis[1] == 1));
    if !isValidInputs {
      return TfLiteError;
    }
    if !keepDims && !referenceOk {
      return TfLiteError;
    }
    return TfLiteOk;
  }

  /** An accepted Mean reduces a float32 4-D input over exactly the axes 1
      and 2; any other element type is rejected. */
  lemma MeanAxesAreHeightAndWidth(inputType: TfLiteType, inputRank: int, axes: seq<int>, keepDims: bool, referenceOk: bool)
    ensures MeanAccepted(inputType, inputRank, axes, keepDims, referenceOk) <==>
            inputType == Float32 && inputRank == 4 && |axes| == 2 &&
            multiset{Int16(axes[0]), Int16(axes[1])} == multiset{1, 2} && (keepDims || referenceOk)
  {
    if |axes| == 2 {
      var a, b := Int16(axes[0]), Int16(axes[1]);
      if multiset{a, b} == multiset{1, 2} {
        assert a in multiset{1, 2} && b in multiset{1, 2};
      }
    }
  }

  /** An axis tensor with null dims counts as the single axis it holds, so
      Mean rejects it. */
  lemma NullAxisDimsRejectedByMean(inputType: TfLiteType, inputRank: int, axisData: seq<int>, keepDims: bool, referenceOk: bool)
    requires 1 <= |axisData|
    ensures NumAxis(None) == 1
    ensures !MeanAccepted(inputType, inputRank, axisData[..NumAxis(None)], keepDims, referenceOk)
  {
  }

  // ---------------------------------------------------------------------
  // Prepare
  // ---------------------------------------------------------------------

  /** The kernel's persistent data (InitMax allocates it). */
  class OpData {
    var multiplier: int
    var shift: int
    var tempBufferIdx: int
    var resolvedAxisIdx: int

    constructor ()
    {
    }
  }

  /** The arena's scratch-buffer requests, in order; a request's index is
      its position. */
  class ScratchArena {
    var sizes: seq<nat>

    constructor ()
      ensures sizes == []
    {
      sizes := [];
    }

    method RequestScratchBufferInArena(bytes: nat) returns (idx: int)
      modifies this
      ensures sizes == old(sizes) + [bytes]
      ensures idx == |old(sizes)|
    {
      idx := |sizes|;
      sizes := sizes + [bytes];
    }
  }

  /** What Prepare checks of the node: two inputs, one output, int32 axis. */
  predicate PrepareChecks(numInputs: int, numOutputs: int, axis: TensorInfo)
  {
    numInputs == 2 && numOutputs == 1 && axis.ttype == Int32
  }

  /** PrepareSimple, with QuantizeMultiplier of inputScale / outputScale as
      the parameter `quantize`: the checks, then for an int8 input the
      output rescaling multiplier and shift. */
  method PrepareSimple(numInputs: int, numOutputs: int, input: TensorInfo, axis: TensorInfo,
                       output: TensorInfo, data: OpData, quantize: (real, real) -> (int, int))
    returns (status: Status)
    modifies data
    ensures status == TfLiteOk <==> PrepareChecks(numInputs, numOutputs, axis)
    ensures status == TfLiteOk && input.ttype == Int8 ==>
              (data.multiplier, data.shift) == quantize(input.scale, output.scale)
    ensures status == TfLiteOk && input.ttype == Int8 ==>
              data.tempBufferIdx == old(data.tempBufferIdx) && data.resolvedAxisIdx == old(data.resolvedAxisIdx)
    ensures status == TfLiteError || input.ttype != Int8 ==> unchanged(data)
  {
    if numInputs != 2 || numOutputs != 1 {
      return TfLiteError;
    }
    if axis.ttype != Int32 {
      return TfLiteError;
    }
    if input.ttype == Int8 {
      var q := quantize(input.scale, output.scale);
      data.multiplier, data.shift := q.0, q.1;
    }
    return TfLiteOk;
  }

  /** PrepareMeanOrSum: PrepareSimple alone. */
  method PrepareMeanOrSum(numInputs: int, numOutputs: int, input: TensorInfo, axis: TensorInfo,
                          output: TensorInfo, data: OpData, quantize: (real, real) -> (int, int))
    returns (status: Status)
    modifies data
    ensures status == TfLiteOk <==> PrepareChecks(numInputs, numOutputs, axis)
    ensures status == TfLiteOk && input.ttype == Int8 ==>
              (data.multiplier, data.shift) == quantize(input.scale, output.scale)
    ensures status == TfLiteOk && input.ttype == Int8 ==>
              data.tempBufferIdx == old(data.tempBufferIdx) && data.resolvedAxisIdx == old(data.resolvedAxisIdx)
    ensures status == TfLiteError || input.ttype != Int8 ==> unchanged(data)
  {
    status := PrepareSimple(numInputs, numOutputs, input, axis, output, data, quantize);
  }

  /** PrepareMax: PrepareSimple, then one scratch buffer of an int per input
      dimension and one of an int per axis (one for null axis dims). */
  method PrepareMax(numInputs: int, numOutputs: int, input: TensorInfo, axis: TensorInfo,
                    output: TensorInfo, data: OpData, arena: ScratchArena, quantize: (real, real) -> (int, int))
    returns (status: Status)
    requires input.dims.Some?
    requires NumAxis(axis.dims) >= 0
    modifies data, arena
    ensures status == TfLiteOk <==> PrepareChecks(numInputs, numOutputs, axis)
    ensures status == TfLiteOk ==>
              arena.sizes == old(arena.sizes) + [4 * |input.dims.value|, 4 * NumAxis(axis.dims)] &&
              data.tempBufferIdx == |old(arena.sizes)| && data.resolvedAxisIdx == |old(arena.sizes)| + 1
    ensures status == TfLiteOk && input.ttype == Int8 ==>
              (data.multiplier, data.shift) == quantize(input.scale, output.scale)
    ensures status == TfLiteOk && input.ttype != Int8 ==>
              data.multiplier == old(data.multiplier) && data.shift == old(data.shift)
    ensures status == TfLiteError ==> unchanged(data) && unchanged(arena)
  {
    status := PrepareSimple(numInputs, numOutputs, input, axis, output, data, quantize);
    if status == TfLiteError {
      return;
    }
    var numElements := NumAxis(axis.dims);
    data.tempBufferIdx := arena.RequestScratchBufferInArena(4 * |input.dims.value|);
    data.resolvedAxisIdx := arena.RequestScratchBufferInArena(4 * numElements);
  }

  // ---------------------------------------------------------------------
  // REDUCE_MAX
  // ---------------------------------------------------------------------

  const Int8Lowest: int := -128
  const Int8Highest: int := 127

  /** The max reducer: the incoming value when it is larger, else the
      current one. */
  function MaxReducer(current: int, x: int): int
  {
    if x > current then x else current
  }

  /** Reducing a run of values from init with the max reducer. */
  function ReduceMax(init: int, xs: seq<int>): int
    decreases |xs|
  {
    if |xs| == 0 then init else ReduceMax(MaxReducer(init, xs[0]), xs[1..])
  }

  /** The reduction is the largest of init and the values. */
  lemma {:induction false} ReduceMaxIsMaximum(init: int, xs: seq<int>)
    ensures ReduceMax(init, xs) >= init
    ensures forall i :: 0 <= i < |xs| ==> ReduceMax(init, xs) >= xs[i]
    ensures ReduceMax(init, xs) == init || ReduceMax(init, xs) in xs
    decreases |xs|
  {
    if |xs| > 0 {
      ReduceMaxIsMaximum(MaxReducer(init, xs[0]), xs[1..]);
      forall i | 1 <= i < |xs|
        ensures ReduceMax(init, xs) >= xs[i]
      {
        assert xs[i] == xs[1..][i - 1];
      }
    }
  }

  /** Starting from int8's lowest value, a non-empty run of int8 values
      reduces to its largest element. */
  lemma Int8ReduceMaxIsLargestElement(xs: seq<int>)
    requires |xs| > 0
    requires forall i :: 0 <= i < |xs| ==> Int8Lowest <= xs[i] <= Int8Highest
    ensures ReduceMax(Int8Lowest, xs) in xs
    ensures forall i :: 0 <= i < |xs| ==> ReduceMax(Int8Lowest, xs) >= xs[i]
  {
    ReduceMaxIsMaximum(Int8Lowest, xs);
  }

  /** std::max(std::min(x, hi), lo). */
  function Clamp(x: int, lo: int, hi: int): int
  {
    Max(Min(x, hi), lo)
  }

  /** Clamping to int8's range lands in that range and keeps values already
      in it. */
  lemma ClampToInt8(x: int)
    ensures Int8Lowest <= Clamp(x, Int8Lowest, Int8Highest) <= Int8Highest
    ensures Int8Lowest <= x <= Int8Highest ==> Clamp(x, Int8Lowest, Int8Highest) == x
  {
  }

  /** The int8 rescaling loop of EvalLogic: each output element replaced by
      its rescaled value (MultiplyByQuantizedMultiplier with the prepared
      multiplier and shift, the parameter `rescale`) clamped to int8. */
  method RescaleInt8Output(outputData: array<int>, rescale: int -> int)
    modifies outputData
    ensures forall i :: 0 <= i < outputData.Length ==>
              outputData[i] == Clamp(rescale(old(outputData[i])), Int8Lowest, Int8Highest)
  {
    var i := 0;
    while i < outputData.Length
      invariant 0 <= i <= outputData.Length
      invariant forall k :: 0 <= k < i ==>
                  outputData[k] == Clamp(rescale(old(outputData[k])), Int8Lowest, Int8Highest)
      invariant forall k :: i <= k < outputData.Length ==> outputData[k] == old(outputData[k])
      modifies outputData
    {
      outputData[i] := Clamp(rescale(outputData[i]), Int8Lowest, Int8Highest);
      i := i + 1;
    }
  }

  /** EvalLogic for the max reducer. The reference ReduceGeneric has already
      written `outputData` and reported `reduceOk`; the model adds the type
      check and the int8 rescaling when the scales differ. */
  method EvalLogic(input: TensorInfo, output: TensorInfo, outputData: array<int>, reduceOk: bool,
                   rescale: int -> int) returns (status: Status)
    modifies outputData
    ensures status == TfLiteOk <==> input.ttype == output.ttype && reduceOk
    ensures status == TfLiteOk && input.ttype == Int8 && input.scale != output.scale ==>
              forall i :: 0 <= i < outputData.Length ==>
                outputData[i] == Clamp(rescale(old(outputData[i])), Int8Lowest, Int8Highest)
    ensures !(status == TfLiteOk && input.ttype == Int8 && input.scale != output.scale) ==>
              unchanged(outputData)
  {
    if input.ttype != output.ttype {
      return TfLiteError;
    }
    if !reduceOk {
      return TfLiteError;
    }
    if input.ttype == Int8 && input.scale != output.scale {
      RescaleInt8Output(outputData, rescale);
    }
    return TfLiteOk;
  }

  /** EvalGeneric<kMax>: int8 and float32 inputs go to the max reduction;
      every other type fails. */
  method EvalMax(input: TensorInfo, output: TensorInfo, outputData: array<int>, reduceOk: bool,
                 rescale: int -> int) returns (status: Status)
    modifies outputData
    ensures status == TfLiteOk <==>
            (input.ttype == Int8 || input.ttype == Float32) && input.ttype == output.ttype && reduceOk
    ensures input.ttype != Int8 || input.scale == output.scale || status == TfLiteError ==> unchanged(outputData)
  {
    if input.ttype != Int8 && input.ttype != Float32 {
      return TfLiteError;
    }
    status := EvalLogic(input, output, outputData, reduceOk, rescale);
  }
}
