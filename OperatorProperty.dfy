// The quantization properties of TFLite builtin operators: for each
// operator, which of its inputs, outputs and intermediates are quantized and
// how, and the operator version the quantized kernel needs.
module OperatorProperty {

  /** The builtin operators the table knows, and any other operator code. */
  datatype BuiltinOp =
    | Add | ArgMax | AveragePool2D | BatchToSpaceNd | SpaceToBatchNd | SpaceToDepth
    | Split | Concatenation | Conv2D | TransposeConv | DepthwiseConv2D
    | Equal | NotEqual | Greater | GreaterEqual | Less | LessEqual
    | ExpandDims | FullyConnected | Gather | HardSwish | LogSoftmax | Logistic
    | Lstm | L2Normalization | MaxPool2D | Maximum | Mean | Minimum | Mul | Pack
    | Pad | PadV2 | Quantize | LeakyRelu | Relu | Relu6 | ReluN1To1 | Reshape
    | ResizeBilinear | ResizeNearestNeighbor | Shape | Slice | Squeeze | Softmax
    | StridedSlice | Sub | Sum | Tanh | Svdf | Transpose | Unpack
    | Other(code: int)

  /** An operator of a subgraph: its operator-code index and its input
      tensor ids (-1 for an omitted optional input). */
  datatype Operator = Operator(opcodeIndex: int, inputs: seq<int>)

  /** The parts of a ModelT the lookup reads. */
  datatype Model = Model(subgraphs: seq<seq<Operator>>, operatorCodes: seq<BuiltinOp>)

  /** An operator together with the LSTM variant flags. */
  datatype OpVariant = OpVariant(op: BuiltinOp, useLayerNorm: bool, useProjection: bool, usePeephole: bool)

  /** Scales derived from other tensors' scales and constant factors. */
  datatype DerivedScale = DerivedScale(inputTensors: seq<int>, intermediateTensors: seq<int>, factors: seq<real>)

  /** How one tensor is quantized. Scales are exact binary fractions, so
      `real` represents the source's float values exactly. */
  datatype TensorProperty = TensorProperty(
    perAxis: bool, perAxisIndex: int, restriction: bool, restrictedValue: (real, int),
    symmetric: bool, useDerivedScale: bool, derivedScale: DerivedScale,
    numberOfBits: int, extendToPowerOfTwo: bool, stateTensor: bool)

  /** How an operator is quantized. */
  datatype OperatorProperty = OperatorProperty(
    quantizable: bool, arbitraryInputs: bool, arbitraryOutputs: bool,
    inputs: seq<(int, TensorProperty)>, outputs: seq<(int, TensorProperty)>,
    biases: seq<int>, intermediates: seq<(int, TensorProperty)>,
    restrictSameInputOutputScale: bool, restrictScale: seq<seq<int>>, version: int)

  /** The defaults of a TensorProperty: 8-bit, per-tensor, asymmetric. */
  const DefaultTensor := TensorProperty(false, 0, false, (0.0, 0), false, false,
                                        DerivedScale([], [], []), 8, false, false)

  /** The defaults of an OperatorProperty: quantizable, no tensors, version -1. */
  const DefaultOperator := OperatorProperty(true, false, false, [], [], [], [], false, [], -1)

  // ---------------------------------------------------------------------
  // GetOperatorVariant

  const CellToOutputWeightIndex := 11
  const ForgetLayerNormCoefficientsIndex := 21
  const ProjectionWeightsIndex := 16

  /** The LSTM inputs the variant flags read exist: 20 inputs (no layer
      norm) or at least 22. */
  predicate LstmInputsReadable(op: BuiltinOp, inputs: seq<int>)
  {
    op == Lstm ==> |inputs| == 20 || |inputs| > ForgetLayerNormCoefficientsIndex
  }

  /** GetOperatorVariant: an LSTM uses projection iff input 16 is present,
      peephole iff input 11 is present and layer norm iff it has more than
      20 inputs and input 21 is present; every other operator has all flags
      off. */
  function GetOperatorVariant(op: BuiltinOp, inputs: seq<int>): (v: OpVariant)
    requires LstmInputsReadable(op, inputs)
    ensures v.op == op
    ensures op != Lstm ==> !v.useLayerNorm && !v.useProjection && !v.usePeephole
    ensures op == Lstm ==>
      (v.useProjection <==> inputs[ProjectionWeightsIndex] != -1)
      && (v.usePeephole <==> inputs[CellToOutputWeightIndex] != -1)
      && (v.useLayerNorm <==> |inputs| != 20 && inputs[ForgetLayerNormCoefficientsIndex] != -1)
  {
    if op != Lstm then OpVariant(op, false, false, false)
    else
      OpVariant(op,
                if |inputs| == 20 then false else inputs[ForgetLayerNormCoefficientsIndex] != -1,
                inputs[ProjectionWeightsIndex] != -1,
                inputs[CellToOutputWeightIndex] != -1)
  }

  // ---------------------------------------------------------------------
  // Tensor properties used by the table

  /** An input or output quantized with the defaults. */
  function In(i: int): (int, TensorProperty) { (i, DefaultTensor) }

  /** Convolution weights: symmetric, per channel along the given axis. */
  function PerAxisWeights(axis: int): TensorProperty
  {
    DefaultTensor.(perAxis := true, perAxisIndex := axis, symmetric := true)
  }

  /** An output whose scale and zero point are fixed. */
  function Restricted(scale: real, zeroPoint: int): TensorProperty
  {
    DefaultTensor.(restriction := true, restrictedValue := (scale, zeroPoint))
  }

  /** 16-bit symmetric tensors: the LSTM peephole weights and layer-norm
      coefficients, and the layer-norm intermediates. */
  const Symmetric16 := DefaultTensor.(numberOfBits := 16, symmetric := true)

  /** The LSTM cell state. */
  const CellState := DefaultTensor.(extendToPowerOfTwo := true, numberOfBits := 16,
                                    stateTensor := true, symmetric := true)

  /** 2^-10, the factor of the layer-norm gate biases. */
  const Alpha: real := 1.0 / 1024.0

  /** The bias of gate k (inputs 12 to 15): with layer norm its scale is the
      gate's layer-norm coefficient scale times 2^-10, without it the input
      scale times the gate's input weight scale. */
  function GateBias(k: int, layerNorm: bool): TensorProperty
  {
    DefaultTensor.(useDerivedScale := true, numberOfBits := 32,
                   derivedScale := if layerNorm then DerivedScale([20 + k], [], [Alpha])
                                   else DerivedScale([0, k + 1], [], []))
  }

  /** The projection bias (input 17): projection weight scale times the
      hidden state's. */
  const ProjectionBias := DefaultTensor.(useDerivedScale := true, numberOfBits := 32,
                                         derivedScale := DerivedScale([16], [4], []))

  /** How LSTM input i is quantized; only the gate biases depend on the
      variant (its layer-norm flag). */
  function LstmTensor(i: int, layerNorm: bool): TensorProperty
  {
    if 0 <= i < 9 || i == 16 then DefaultTensor
    else if 12 <= i < 16 then GateBias(i - 12, layerNorm)
    else if i == 17 then ProjectionBias
    else if i == 19 then CellState
    else Symmetric16
  }

  /** The indices of an LSTM variant's inputs, in the source's order: the
      nine weights 0 to 8, the peephole weights 9 to 11, the projection
      weights 16, the cell state 19, the layer-norm coefficients 20 to 23,
      the gate biases 12 to 15 and the projection bias 17, each optional
      block present only with its variant flag. */
  function LstmIndices(v: OpVariant): seq<int>
  {
    [0, 1, 2, 3, 4, 5, 6, 7, 8]
    + (if v.usePeephole then [9, 10, 11] else [])
    + (if v.useProjection then [16] else [])
    + [19]
    + (if v.useLayerNorm then [20, 21, 22, 23] else [])
    + [12, 13, 14, 15]
    + (if v.useProjection then [17] else [])
  }

  /** The inputs each of the eight LSTM variants lists, block by block. */
  function LstmInputs(v: OpVariant): seq<(int, TensorProperty)>
  {
    [In(0), In(1), In(2), In(3), In(4), In(5), In(6), In(7), In(8)]
    + (if v.usePeephole then [(9, Symmetric16), (10, Symmetric16), (11, Symmetric16)] else [])
    + (if v.useProjection then [In(16)] else [])
    + [(19, CellState)]
    + (if v.useLayerNorm then [(20, Symmetric16), (21, Symmetric16), (22, Symmetric16), (23, Symmetric16)]
       else [])
    + GateBiases(v.useLayerNorm)
    + (if v.useProjection then [(17, ProjectionBias)] else [])
  }

  /** The four gate biases, inputs 12 to 15. */
  function GateBiases(layerNorm: bool): seq<(int, TensorProperty)>
  {
    [(12, GateBias(0, layerNorm)), (13, GateBias(1, layerNorm)),
     (14, GateBias(2, layerNorm)), (15, GateBias(3, layerNorm))]
  }

  /** The property list ps pairs each index of ix, in order, with how
      LSTM input is quantized. */
  predicate TaggedAs(ps: seq<(int, TensorProperty)>, ix: seq<int>, layerNorm: bool)
  {
    |ps| == |ix| && forall k :: 0 <= k < |ps| ==> ps[k] == (ix[k], LstmTensor(ix[k], layerNorm))
  }

  /** The five LSTM intermediates; the first four are 16-bit symmetric
      with layer norm and unused (default) without it. */
  function LstmIntermediates(layerNorm: bool): seq<(int, TensorProperty)>
  {
    if layerNorm then [(0, Symmetric16), (1, Symmetric16), (2, Symmetric16), (3, Symmetric16), In(4)]
    else [In(0), In(1), In(2), In(3), In(4)]
  }

  function LstmProperty(v: OpVariant): OperatorProperty
  {
    DefaultOperator.(inputs := LstmInputs(v), outputs := [In(0)],
                     intermediates := LstmIntermediates(v.useLayerNorm),
                     restrictScale := [[18, 0]], version := 2)
  }

  // ---------------------------------------------------------------------
  // The table

  /** One input and one output (input 0 and output 0). */
  function Unary(version: int, sameScale: bool): OperatorProperty
  {
    DefaultOperator.(inputs := [In(0)], outputs := [In(0)],
                     restrictSameInputOutputScale := sameScale, version := version)
  }

  /** Inputs 0 and 1, output 0. */
  function Binary(version: int): OperatorProperty
  {
    DefaultOperator.(inputs := [In(0), In(1)], outputs := [In(0)], version := version)
  }

  /** Any number of inputs sharing the output's scale. */
  function AnyInputs(): OperatorProperty
  {
    DefaultOperator.(arbitraryInputs := true, outputs := [In(0)],
                     restrictSameInputOutputScale := true, version := 2)
  }

  /** Input 0 and an output with a fixed scale and zero point. */
  function FixedOutput(scale: real, zeroPoint: int): OperatorProperty
  {
    DefaultOperator.(inputs := [In(0)], outputs := [(0, Restricted(scale, zeroPoint))], version := 2)
  }

  /** Input 0 and no quantized output (comparisons' inputs aside). */
  function InputOnly(version: int): OperatorProperty
  {
    DefaultOperator.(inputs := [In(0)], version := version)
  }

  /** Comparisons: inputs 0 and 1, a boolean output. */
  function Comparison(): OperatorProperty
  {
    DefaultOperator.(inputs := [In(0), In(1)], version := 2)
  }

  /** One input and any number of outputs sharing its scale (SPLIT reads
      input 1, UNPACK input 0). */
  function AnyOutputs(input: int, version: int): OperatorProperty
  {
    DefaultOperator.(inputs := [In(input)], arbitraryOutputs := true,
                     restrictSameInputOutputScale := true, version := version)
  }

  /** CONV_2D (weights per channel along axis 0) and DEPTHWISE_CONV_2D
      (along axis 3): input 0, weights 1, bias 2. */
  function Convolution(axis: int): OperatorProperty
  {
    DefaultOperator.(inputs := [In(0), (1, PerAxisWeights(axis))], outputs := [In(0)],
                     biases := [2], version := 3)
  }

  /** TRANSPOSE_CONV: weights 1 per channel along axis 0, input 2. */
  function TransposeConvolution(): OperatorProperty
  {
    DefaultOperator.(inputs := [(1, PerAxisWeights(0)), In(2)], outputs := [In(0)], version := 2)
  }

  /** FULLY_CONNECTED: symmetric per-tensor weights 1, bias 2. */
  function FullyConnectedProperty(): OperatorProperty
  {
    DefaultOperator.(inputs := [In(0), (1, DefaultTensor.(symmetric := true))], outputs := [In(0)],
                     biases := [2], version := 4)
  }

  /** SVDF: inputs 0 and 1 with defaults, 10-bit weights 2, 16-bit state 4,
      and bias 3 whose scale is derived from inputs 2 and 4. */
  function SvdfProperty(): OperatorProperty
  {
    DefaultOperator.(inputs := [In(0), In(1), (2, DefaultTensor.(numberOfBits := 10)),
                                (4, DefaultTensor.(numberOfBits := 16, stateTensor := true)),
                                (3, DefaultTensor.(useDerivedScale := true, numberOfBits := 32,
                                                   derivedScale := DerivedScale([2, 4], [], [])))],
                     outputs := [In(0)], version := 3)
  }

  /** The property of an operator the table does not know. */
  const NotQuantizable := DefaultOperator.(quantizable := false)

  /** The shapes the entries of the table take; most operators share one
      with others. */
  datatype Entry =
    | UnaryEntry(version: int, sameScale: bool)
    | BinaryEntry(version: int)
    | AnyInputsEntry
    | FixedOutputEntry(scale: real, zeroPoint: int)
    | InputOnlyEntry(version: int)
    | ComparisonEntry
    | AnyOutputsEntry(input: int, version: int)
    | ConvolutionEntry(axis: int)
    | TransposeConvEntry
    | FullyConnectedEntry
    | SvdfEntry
    | LstmEntry
    | UnknownEntry

  /** The table entry of each operator (the cases of the switch of
      GetOperatorProperty). */
  function EntryOf(op: BuiltinOp): Entry
  {
    match op
    case Add => BinaryEntry(2)
    case ArgMax => InputOnlyEntry(2)
    case AveragePool2D => UnaryEntry(2, true)
    case BatchToSpaceNd => UnaryEntry(2, true)
    case SpaceToBatchNd => UnaryEntry(2, true)
    case SpaceToDepth => UnaryEntry(2, true)
    case Split => AnyOutputsEntry(1, 2)
    case Concatenation => AnyInputsEntry
    case Conv2D => ConvolutionEntry(0)
    case TransposeConv => TransposeConvEntry
    case DepthwiseConv2D => ConvolutionEntry(3)
    case Equal => ComparisonEntry
    case NotEqual => ComparisonEntry
    case Greater => ComparisonEntry
    case GreaterEqual => ComparisonEntry
    case Less => ComparisonEntry
    case LessEqual => ComparisonEntry
    case ExpandDims => UnaryEntry(1, false)
    case FullyConnected => FullyConnectedEntry
    case Gather => UnaryEntry(2, true)
    case HardSwish => UnaryEntry(1, false)
    case LogSoftmax => FixedOutputEntry(16.0 / 256.0, 127)
    case Logistic => FixedOutputEntry(1.0 / 256.0, -128)
    case Lstm => LstmEntry
    case L2Normalization => FixedOutputEntry(1.0 / 128.0, 0)
    case MaxPool2D => UnaryEntry(2, true)
    case Maximum => AnyInputsEntry
    case Mean => UnaryEntry(2, false)
    case Minimum => AnyInputsEntry
    case Mul => BinaryEntry(2)
    case Pack => AnyInputsEntry
    case Pad => UnaryEntry(2, true)
    case PadV2 => UnaryEntry(2, true)
    case Quantize => UnaryEntry(2, false)
    case LeakyRelu => UnaryEntry(2, false)
    case Relu => UnaryEntry(2, false)
    case Relu6 => UnaryEntry(2, false)
    case ReluN1To1 => UnaryEntry(1, false)
    case Reshape => UnaryEntry(1, true)
    case ResizeBilinear => UnaryEntry(2, true)
    case ResizeNearestNeighbor => UnaryEntry(2, true)
    case Shape => InputOnlyEntry(1)
    case Slice => UnaryEntry(2, true)
    case Squeeze => UnaryEntry(1, true)
    case Softmax => FixedOutputEntry(1.0 / 256.0, -128)
    case StridedSlice => UnaryEntry(2, true)
    case Sub => BinaryEntry(2)
    case Sum => UnaryEntry(2, false)
    case Tanh => FixedOutputEntry(1.0 / 128.0, 0)
    case Svdf => SvdfEntry
    case Transpose => UnaryEntry(2, true)
    case Unpack => AnyOutputsEntry(0, 1)
    case Other(_) => UnknownEntry
  }


  /** The property an entry stands for; an LSTM's depends on its variant. */
  function Build(e: Entry, v: OpVariant): OperatorProperty
  {
    match e
    case UnaryEntry(version, sameScale) => Unary(version, sameScale)
    case BinaryEntry(version) => Binary(version)
    case AnyInputsEntry => AnyInputs()
    case FixedOutputEntry(scale, zeroPoint) => FixedOutput(scale, zeroPoint)
    case InputOnlyEntry(version) => InputOnly(version)
    case ComparisonEntry => Comparison()
    case AnyOutputsEntry(input, version) => AnyOutputs(input, version)
    case ConvolutionEntry(axis) => Convolution(axis)
    case TransposeConvEntry => TransposeConvolution()
    case FullyConnectedEntry => FullyConnectedProperty()
    case SvdfEntry => SvdfProperty()
    case LstmEntry => LstmProperty(v)
    case UnknownEntry => NotQuantizable
  }

  /** The property of an operator variant. */
  function PropertyOf(v: OpVariant): OperatorProperty
  {
    Build(EntryOf(v.op), v)
  }

  /** No tensor index is listed twice. */
  predicate Distinct(s: seq<int>)
  {
    forall k, l :: 0 <= k < l < |s| ==> s[k] != s[l]
  }

  /** No tensor index of a property list is listed twice. */
  predicate DistinctKeys(ps: seq<(int, TensorProperty)>)
  {
    forall k, l :: 0 <= k < l < |ps| ==> ps[k].0 != ps[l].0
  }

  /** A well-formed property: an unknown operator has the defaults with
      quantizable off; a known one needs a version from 1 to 4, and no
      input, output or intermediate index is listed twice. */
  predicate WellFormed(p: OperatorProperty)
  {
    (!p.quantizable ==> p == DefaultOperator.(quantizable := false))
    && (p.quantizable ==> 1 <= p.version <= 4)
    && DistinctKeys(p.inputs) && DistinctKeys(p.outputs) && DistinctKeys(p.intermediates)
  }

  /** GetOperatorProperty: looks the operator up in the model (the subgraph
      and operator indices must exist) and returns its variant's property.
      It is quantizable iff the operator is one the table knows. */
  function GetOperatorProperty(model: Model, subgraphIndex: int, opIndex: int): (p: OperatorProperty)
    requires 0 <= subgraphIndex < |model.subgraphs|
    requires 0 <= opIndex < |model.subgraphs[subgraphIndex]|
    requires 0 <= model.subgraphs[subgraphIndex][opIndex].opcodeIndex < |model.operatorCodes|
    requires var op := model.subgraphs[subgraphIndex][opIndex];
      LstmInputsReadable(model.operatorCodes[op.opcodeIndex], op.inputs)
    ensures var op := model.subgraphs[subgraphIndex][opIndex];
      p == PropertyOf(GetOperatorVariant(model.operatorCodes[op.opcodeIndex], op.inputs))
    ensures var op := model.subgraphs[subgraphIndex][opIndex];
      p.quantizable <==> !model.operatorCodes[op.opcodeIndex].Other?
  {
    var op := model.subgraphs[subgraphIndex][opIndex];
    var v := GetOperatorVariant(model.operatorCodes[op.opcodeIndex], op.inputs);
    UnknownOpNotQuantizable(v);
    PropertyOf(v)
  }

  // ---------------------------------------------------------------------
  // Properties of the table

  lemma TaggedAppend(ps: seq<(int, TensorProperty)>, ix: seq<int>,
                     qs: seq<(int, TensorProperty)>, jx: seq<int>, layerNorm: bool)
    requires TaggedAs(ps, ix, layerNorm) && TaggedAs(qs, jx, layerNorm)
    ensures TaggedAs(ps + qs, ix + jx, layerNorm)
  {
    forall k | 0 <= k < |ps + qs|
      ensures (ps + qs)[k] == ((ix + jx)[k], LstmTensor((ix + jx)[k], layerNorm))
    {
      if k < |ps| {
        assert (ps + qs)[k] == ps[k] && (ix + jx)[k] == ix[k];
      } else {
        assert (ps + qs)[k] == qs[k - |ps|] && (ix + jx)[k] == jx[k - |ps|];
      }
    }
  }

  /** Each block of the LSTM inputs pairs its indices with their LSTM
      tensor properties. */
  lemma LstmBlocksTagged(ln: bool)
    ensures TaggedAs([In(0), In(1), In(2), In(3), In(4), In(5), In(6), In(7), In(8)], [0, 1, 2, 3, 4, 5, 6, 7, 8], ln)
    ensures TaggedAs([(9, Symmetric16), (10, Symmetric16), (11, Symmetric16)], [9, 10, 11], ln)
    ensures TaggedAs([In(16)], [16], ln) && TaggedAs([(17, ProjectionBias)], [17], ln)
    ensures TaggedAs([(19, CellState)], [19], ln)
    ensures TaggedAs([(20, Symmetric16), (21, Symmetric16), (22, Symmetric16), (23, Symmetric16)], [20, 21, 22, 23], ln)
    ensures TaggedAs(GateBiases(ln), [12, 13, 14, 15], ln)
    ensures TaggedAs([], [], ln)
  {
  }

  /** The inputs of an LSTM variant are its indices, in order, each with
      its LSTM tensor property. */
  lemma LstmInputsTagged(v: OpVariant)
    ensures TaggedAs(LstmInputs(v), LstmIndices(v), v.useLayerNorm)
  {
    var ln := v.useLayerNorm;
    var b1: seq<(int, TensorProperty)> := [In(0), In(1), In(2), In(3), In(4), In(5), In(6), In(7), In(8)];
    var b2: seq<(int, TensorProperty)> := if v.usePeephole then [(9, Symmetric16), (10, Symmetric16), (11, Symmetric16)] else [];
    var b3: seq<(int, TensorProperty)> := if v.useProjection then [In(16)] else [];
    var b4 := [(19, CellState)];
    var b5: seq<(int, TensorProperty)> :=
      if ln then [(20, Symmetric16), (21, Symmetric16), (22, Symmetric16), (23, Symmetric16)] else [];
    var b6 := GateBiases(ln);
    var b7: seq<(int, TensorProperty)> := if v.useProjection then [(17, ProjectionBias)] else [];
    var i1 := [0, 1, 2, 3, 4, 5, 6, 7, 8];
    var i2 := if v.usePeephole then [9, 10, 11] else [];
    var i3 := if v.useProjection then [16] else [];
    var i5 := if ln then [20, 21, 22, 23] else [];
    var i7 := if v.useProjection then [17] else [];
    LstmBlocksTagged(ln);
    TaggedAppend(b1, i1, b2, i2, ln);
    TaggedAppend(b1 + b2, i1 + i2, b3, i3, ln);
    TaggedAppend(b1 + b2 + b3, i1 + i2 + i3, b4, [19], ln);
    TaggedAppend(b1 + b2 + b3 + b4, i1 + i2 + i3 + [19], b5, i5, ln);
    TaggedAppend(b1 + b2 + b3 + b4 + b5, i1 + i2 + i3 + [19] + i5, b6, [12, 13, 14, 15], ln);
    TaggedAppend(b1 + b2 + b3 + b4 + b5 + b6, i1 + i2 + i3 + [19] + i5 + [12, 13, 14, 15], b7, i7, ln);
  }

  /** The indices an LSTM variant lists: the weights 0 to 8, the gate
      biases 12 to 15 and the cell state 19 always, the peephole weights 9
      to 11, the projection weights and bias 16 and 17 and the layer-norm
      coefficients 20 to 23 each iff its flag is set; never input 18. */
  lemma LstmIndicesLayout(v: OpVariant)
    ensures forall x :: x in LstmIndices(v) <==>
      0 <= x < 9 || 12 <= x < 16 || x == 19 || (v.usePeephole && 9 <= x < 12)
      || (v.useProjection && (x == 16 || x == 17)) || (v.useLayerNorm && 20 <= x < 24)
  {
  }

  /** An LSTM variant has 14 inputs, 3 more with peephole, 2 more with
      projection and 4 more with layer norm. */
  lemma LstmInputCount(v: OpVariant)
    requires v.op == Lstm
    ensures |PropertyOf(v).inputs| ==
      14 + (if v.usePeephole then 3 else 0) + (if v.useProjection then 2 else 0)
      + (if v.useLayerNorm then 4 else 0)
  {
    assert PropertyOf(v) == LstmProperty(v);
  }

  /** Every LSTM variant restricts input 18 to output 0's scale, needs
      version 2, quantizes output 0 and has five intermediates 0 to 4. */
  lemma LstmCommon(v: OpVariant)
    requires v.op == Lstm
    ensures PropertyOf(v).restrictScale == [[18, 0]] && PropertyOf(v).version == 2
    ensures PropertyOf(v).outputs == [In(0)] && |PropertyOf(v).intermediates| == 5
    ensures forall k :: 0 <= k < 5 ==> PropertyOf(v).intermediates[k].0 == k
    ensures PropertyOf(v).quantizable && PropertyOf(v).biases == []
  {
    assert PropertyOf(v) == LstmProperty(v);
  }

  /** The entry parameters the table uses: versions 1 to 4. */
  predicate EntryValid(e: Entry)
  {
    match e
    case UnaryEntry(version, _) => 1 <= version <= 4
    case BinaryEntry(version) => 1 <= version <= 4
    case InputOnlyEntry(version) => 1 <= version <= 4
    case AnyOutputsEntry(_, version) => 1 <= version <= 4
    case _ => true
  }

  lemma EntriesValid(op: BuiltinOp)
    ensures EntryValid(EntryOf(op))
  {
  }

  /** An entry with valid parameters builds a well-formed property
      (the LSTM entry aside: see LstmIndicesLayout). */
  lemma BuildWellFormed(e: Entry, v: OpVariant)
    requires EntryValid(e) && !e.LstmEntry?
    ensures WellFormed(Build(e, v))
  {
  }

  /** Every entry of the table but LSTM's is well formed. */
  lemma PropertyWellFormed(v: OpVariant)
    requires v.op != Lstm
    ensures WellFormed(PropertyOf(v))
  {
    EntriesValid(v.op);
    BuildWellFormed(EntryOf(v.op), v);
  }

  /** Only the unknown entry is not quantizable. */
  lemma BuildQuantizable(e: Entry, v: OpVariant)
    ensures Build(e, v).quantizable <==> !e.UnknownEntry?
  {
  }

  /** Only operators outside the table are not quantizable. */
  lemma UnknownOpNotQuantizable(v: OpVariant)
    ensures !PropertyOf(v).quantizable <==> v.op.Other?
  {
    BuildQuantizable(EntryOf(v.op), v);
    UnknownEntryOf(v.op);
  }

  lemma UnknownEntryOf(op: BuiltinOp)
    ensures EntryOf(op).UnknownEntry? <==> op.Other?
  {
  }

  /** CONV_2D and DEPTHWISE_CONV_2D quantize their weights (input 1)
      symmetrically per channel, along axis 0 and axis 3, with bias input 2
      and version 3. */
  lemma ConvolutionWeights(v: OpVariant)
    requires v.op == Conv2D || v.op == DepthwiseConv2D
    ensures var p := PropertyOf(v);
      |p.inputs| == 2 && p.inputs[0].0 == 0 && p.inputs[1].0 == 1 && p.inputs[1].1.perAxis && p.inputs[1].1.symmetric
      && p.inputs[1].1.perAxisIndex == (if v.op == Conv2D then 0 else 3)
      && p.biases == [2] && p.version == 3
  {
    assert EntryOf(v.op) == ConvolutionEntry(if v.op == Conv2D then 0 else 3);
  }

  /** Comparisons, ARG_MAX and SHAPE have no quantizable output. */
  lemma NoQuantizableOutputs(v: OpVariant)
    requires v.op.Equal? || v.op.NotEqual? || v.op.Greater? || v.op.GreaterEqual? || v.op.Less? || v.op.LessEqual?
             || v.op.ArgMax? || v.op.Shape?
    ensures PropertyOf(v).outputs == [] && !PropertyOf(v).arbitraryOutputs && PropertyOf(v).quantizable
  {
    assert EntryOf(v.op).ComparisonEntry? || EntryOf(v.op).InputOnlyEntry?;
  }

  /** SVDF quantizes inputs 0, 1, 2, 4 and 3, in that order: 0 and 1 with the
      defaults, the 10-bit time weights 2, the 16-bit state 4, and the 32-bit
      bias 3 whose scale is the product of the scales of 2 and 4. */
  lemma SvdfInputs(v: OpVariant)
    requires v.op == Svdf
    ensures var p := PropertyOf(v);
      |p.inputs| == 5 && p.inputs[0] == In(0) && p.inputs[1] == In(1)
      && p.inputs[2].0 == 2 && p.inputs[2].1.numberOfBits == 10
      && p.inputs[3].0 == 4 && p.inputs[3].1.numberOfBits == 16 && p.inputs[3].1.stateTensor
      && p.inputs[4].0 == 3 && p.inputs[4].1.useDerivedScale && p.inputs[4].1.numberOfBits == 32
      && p.inputs[4].1.derivedScale.inputTensors == [2, 4]
      && p.outputs == [In(0)] && p.version == 3
  {
    assert EntryOf(v.op) == SvdfEntry;
  }
}
