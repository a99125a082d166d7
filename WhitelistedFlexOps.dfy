// The TensorFlow operators that TFLite's Flex delegate may run: a fixed set
// of operator names and a lookup that tests whether a name is one of them.
module WhitelistedFlexOps {

  // The names are stored by their first character: for each character c,
  // the remainders of the listed names that start with c, in their
  // sorted order, in chunks of at most 16. So "Abort" is stored as "bort"
  // under 'A' and "_Send" as "Send" under '_'.
  /** Names starting with 'A' (1 of 3), from "Abort" to "ApplyAdadelta". */
  function TailsA1(): seq<string>
  {
    ["bort", "bs", "dd", "ddN", "ddV2",
     "djustContrast", "djustContrastv2", "djustHue", "djustSaturation", "ll",
     "ny", "pplyAdaMax", "pplyAdadelta"]
  }

  /** Names starting with 'A' (2 of 3), from "ApplyAdagrad" to "ApplyProximalGradientDescent". */
  function TailsA2(): seq<string>
  {
    ["pplyAdagrad", "pplyAdagradDA", "pplyAdagradV2", "pplyAdam", "pplyAddSign",
     "pplyCenteredRMSProp", "pplyFtrl", "pplyFtrlV2", "pplyGradientDescent", "pplyMomentum",
     "pplyPowerSign", "pplyProximalAdagrad", "pplyProximalGradientDescent"]
  }

  /** Names starting with 'A' (3 of 3), from "ApplyRMSProp" to "AvgPoolGrad". */
  function TailsA3(): seq<string>
  {
    ["pplyRMSProp", "pproximateEqual", "rgMax", "rgMin", "ssert",
     "ssign", "ssignAdd", "ssignSub", "udioSpectrogram", "vgPool",
     "vgPool3D", "vgPool3DGrad", "vgPoolGrad"]
  }

  /** Names starting with 'B', from "BatchMatMul" to "Bucketize". */
  function TailsB(): seq<string>
  {
    ["atchMatMul", "atchMatMulV2", "atchNormWithGlobalNormalization", "atchNormWithGlobalNormalizationGrad", "atchToSpace",
     "atchToSpaceND", "iasAdd", "iasAddGrad", "iasAddV1", "oostedTreesBucketize",
     "roadcastArgs", "roadcastGradientArgs", "roadcastTo", "ucketize"]
  }

  /** Names starting with 'C' (1 of 2), from "CTCBeamSearchDecoder" to "ControlTrigger". */
  function TailsC1(): seq<string>
  {
    ["TCBeamSearchDecoder", "TCGreedyDecoder", "ast", "eil", "heckNumerics",
     "omplexAbs", "oncat", "oncatOffset", "oncatV2", "onj",
     "onjugateTranspose", "onst", "ontrolTrigger"]
  }

  /** Names starting with 'C' (2 of 2), from "Conv2D" to "Cumsum". */
  function TailsC2(): seq<string>
  {
    ["onv2D", "onv2DBackpropFilter", "onv2DBackpropInput", "onv3D", "onv3DBackpropInputV2",
     "os", "osh", "ropAndResize", "ropAndResizeGradBoxes", "ropAndResizeGradImage",
     "umprod", "umsum"]
  }

  /** Names starting with 'D' (1 of 2), from "DataFormatDimMap" to "DepthToSpace". */
  function TailsD1(): seq<string>
  {
    ["ataFormatDimMap", "ataFormatVecPermute", "ebugGradientIdentity", "ebugGradientRefIdentity", "ecodeBase64",
     "ecodeBmp", "ecodeWav", "eepCopy", "eleteSessionTensor", "epthToSpace"]
  }

  /** Names starting with 'D' (2 of 2), from "DepthwiseConv2dNative" to "DynamicStitch". */
  function TailsD2(): seq<string>
  {
    ["epthwiseConv2dNative", "equantize", "estroyTemporaryVariable", "iag", "ilation2D",
     "iv", "ivNoNan", "ynamicPartition", "ynamicStitch"]
  }

  /** Names starting with 'E', from "Einsum" to "ExtractImagePatches". */
  function TailsE(): seq<string>
  {
    ["insum", "lu", "luGrad", "mpty", "ncodeBase64",
     "ncodeWav", "nsureShape", "nter", "qual", "rf",
     "xit", "xp", "xpandDims", "xtractImagePatches"]
  }

  /** Names starting with 'F' (1 of 2), from "FFT" to "FakeQueue". */
  function TailsF1(): seq<string>
  {
    ["FT", "FT2D", "FT3D", "IFOQueue", "IFOQueueV2",
     "akeQuantWithMinMaxArgs", "akeQuantWithMinMaxArgsGradient", "akeQuantWithMinMaxVars", "akeQuantWithMinMaxVarsGradient", "akeQuantWithMinMaxVarsPerChannel",
     "akeQuantWithMinMaxVarsPerChannelGradient", "akeQueue"]
  }

  /** Names starting with 'F' (2 of 2), from "Fill" to "FusedResizeAndPadConv2D". */
  function TailsF2(): seq<string>
  {
    ["ill", "loor", "loorDiv", "loorMod", "usedBatchNorm",
     "usedBatchNormGrad", "usedBatchNormGradV2", "usedBatchNormGradV3", "usedBatchNormV2", "usedBatchNormV3",
     "usedPadConv2D", "usedResizeAndPadConv2D"]
  }

  /** Names starting with 'G', from "Gather" to "GreaterEqual". */
  function TailsG(): seq<string>
  {
    ["ather", "atherNd", "atherV2", "etSessionHandle", "etSessionHandleV2",
     "etSessionTensor", "reater", "reaterEqual"]
  }

  /** Names starting with 'I' (1 of 2), from "IFFT" to "ImmutableConst". */
  function TailsI1(): seq<string>
  {
    ["FFT", "FFT2D", "FFT3D", "RFFT", "RFFT2D",
     "RFFT3D", "dentity", "dentityN", "mag", "mageProjectiveTransformV2",
     "mmutableConst"]
  }

  /** Names starting with 'I' (2 of 2), from "InTopK" to "IsVariableInitialized". */
  function TailsI2(): seq<string>
  {
    ["nTopK", "nTopKV2", "nplaceAdd", "nplaceSub", "nplaceUpdate",
     "nv", "nvGrad", "nvertPermutation", "sFinite", "sNan",
     "sVariableInitialized"]
  }

  /** Names starting with 'L', from "LRN" to "LoopCond". */
  function TailsL(): seq<string>
  {
    ["RN", "eakyRelu", "eakyReluGrad", "ess", "essEqual",
     "inSpace", "istDiff", "og", "ogSoftmax", "ogicalAnd",
     "ogicalNot", "ogicalOr", "oopCond"]
  }

  /** Names starting with 'M' (1 of 2), from "MatMul" to "MaxPoolGradV2". */
  function TailsM1(): seq<string>
  {
    ["atMul", "atrixDiag", "atrixDiagV2", "atrixDiagV3", "atrixInverse",
     "atrixSetDiag", "atrixSetDiagV2", "atrixSetDiagV3", "ax", "axPool",
     "axPool3D", "axPoolGrad", "axPoolGradGrad", "axPoolGradGradV2", "axPoolGradV2"]
  }

  /** Names starting with 'M' (2 of 2), from "MaxPoolGradWithArgmax" to "Multinomial". */
  function TailsM2(): seq<string>
  {
    ["axPoolGradWithArgmax", "axPoolV2", "axPoolWithArgmax", "aximum", "ean",
     "erge", "ergeV2Checkpoints", "fcc", "in", "inimum",
     "irrorPad", "irrorPadGrad", "ul", "ulNoNan", "ultinomial"]
  }

  /** Names starting with 'N', from "Neg" to "NotEqual". */
  function TailsN(): seq<string>
  {
    ["eg", "extIteration", "oOp", "onMaxSuppression", "onMaxSuppressionV2",
     "onMaxSuppressionV3", "onMaxSuppressionV4", "onMaxSuppressionWithOverlaps", "otEqual"]
  }

  /** Names starting with 'O', from "OneHot" to "OnesLike". */
  function TailsO(): seq<string>
  {
    ["neHot", "nesLike"]
  }

  /** Names starting with 'P' (1 of 2), from "Pack" to "ParseSingleExample". */
  function TailsP1(): seq<string>
  {
    ["ack", "ad", "adV2", "addingFIFOQueue", "addingFIFOQueueV2",
     "arallelDynamicStitch", "arseExample", "arseExampleV2", "arseSequenceExample", "arseSingleExample"]
  }

  /** Names starting with 'P' (2 of 2), from "ParseSingleSequenceExample" to "Prod". */
  function TailsP2(): seq<string>
  {
    ["arseSingleSequenceExample", "laceholder", "laceholderV2", "laceholderWithDefault", "ow",
     "reventGradient", "rint", "rintV2", "rod"]
  }

  /** Names starting with 'Q' (1 of 2), from "QuantizeDownAndShrinkRange" to "QuantizedResizeBilinear". */
  function TailsQ1(): seq<string>
  {
    ["uantizeDownAndShrinkRange", "uantizeV2", "uantizedAdd", "uantizedAvgPool", "uantizedBatchNormWithGlobalNormalization",
     "uantizedBiasAdd", "uantizedConcat", "uantizedConv2D", "uantizedInstanceNorm", "uantizedMatMul",
     "uantizedMaxPool", "uantizedMul", "uantizedRelu", "uantizedRelu6", "uantizedReshape",
     "uantizedResizeBilinear"]
  }

  /** Names starting with 'Q' (2 of 2), from "QueueClose" to "QueueSizeV2". */
  function TailsQ2(): seq<string>
  {
    ["ueueClose", "ueueCloseV2", "ueueDequeue", "ueueDequeueMany", "ueueDequeueManyV2",
     "ueueDequeueUpTo", "ueueDequeueUpToV2", "ueueDequeueV2", "ueueEnqueue", "ueueEnqueueMany",
     "ueueEnqueueManyV2", "ueueEnqueueV2", "ueueIsClosed", "ueueIsClosedV2", "ueueSize",
     "ueueSizeV2"]
  }

  /** Names starting with 'R' (1 of 5), from "RFFT" to "ReduceJoin". */
  function TailsR1(): seq<string>
  {
    ["FFT", "FFT2D", "FFT3D", "aggedRange", "andomGamma",
     "andomStandardNormal", "andomUniform", "andomUniformInt", "ange", "ank",
     "eal", "ealDiv", "eciprocal", "eciprocalGrad", "educeJoin"]
  }

  /** Names starting with 'R' (2 of 5), from "RefEnter" to "Requantize". */
  function TailsR2(): seq<string>
  {
    ["efEnter", "efExit", "efIdentity", "efMerge", "efNextIteration",
     "efSelect", "efSwitch", "egexReplace", "elu", "elu6",
     "elu6Grad", "eluGrad", "emoteCall", "equantizationRange", "equantize"]
  }

  /** Names starting with 'R' (3 of 5), from "Reshape" to "ResourceApplyFtrlV2". */
  function TailsR3(): seq<string>
  {
    ["eshape", "esizeBilinear", "esizeBilinearGrad", "esizeNearestNeighbor", "esizeNearestNeighborGrad",
     "esourceApplyAdaMax", "esourceApplyAdadelta", "esourceApplyAdagrad", "esourceApplyAdagradDA", "esourceApplyAdagradV2",
     "esourceApplyAdam", "esourceApplyAddSign", "esourceApplyCenteredRMSProp", "esourceApplyFtrl", "esourceApplyFtrlV2"]
  }

  /** Names starting with 'R' (4 of 5), from "ResourceApplyGradientDescent" to "ResourceSparseApplyProximalGradientDescent". */
  function TailsR4(): seq<string>
  {
    ["esourceApplyGradientDescent", "esourceApplyMomentum", "esourceApplyPowerSign", "esourceApplyProximalAdagrad", "esourceApplyProximalGradientDescent",
     "esourceApplyRMSProp", "esourceSparseApplyAdadelta", "esourceSparseApplyAdagrad", "esourceSparseApplyAdagradDA", "esourceSparseApplyCenteredRMSProp",
     "esourceSparseApplyFtrl", "esourceSparseApplyFtrlV2", "esourceSparseApplyMomentum", "esourceSparseApplyProximalAdagrad", "esourceSparseApplyProximalGradientDescent"]
  }

  /** Names starting with 'R' (5 of 5), from "ResourceSparseApplyRMSProp" to "RsqrtGrad". */
  function TailsR5(): seq<string>
  {
    ["esourceSparseApplyRMSProp", "esourceStridedSliceAssign", "estore", "estoreSlice", "estoreV2",
     "everse", "everseSequence", "everseV2", "ound", "sqrt",
     "sqrtGrad"]
  }

  /** Names starting with 'S' (1 of 7), from "SampleDistortedBoundingBoxV2" to "SeluGrad". */
  function TailsS1(): seq<string>
  {
    ["ampleDistortedBoundingBoxV2", "ave", "aveSlices", "aveV2", "catterNd",
     "egmentMax", "egmentMean", "egmentMin", "egmentProd", "egmentSum",
     "elect", "electV2", "elu", "eluGrad"]
  }

  /** Names starting with 'S' (2 of 7), from "Shape" to "Softplus". */
  function TailsS2(): seq<string>
  {
    ["hape", "hapeN", "hardedFilename", "hardedFilespec", "igmoid",
     "igmoidGrad", "ign", "in", "inh", "ize",
     "lice", "oftmax", "oftmaxCrossEntropyWithLogits", "oftplus"]
  }

  /** Names starting with 'S' (3 of 7), from "SoftplusGrad" to "SparseApplyProximalAdagrad". */
  function TailsS3(): seq<string>
  {
    ["oftplusGrad", "oftsign", "oftsignGrad", "paceToBatch", "paceToBatchND",
     "paceToDepth", "parseApplyAdadelta", "parseApplyAdagrad", "parseApplyAdagradDA", "parseApplyCenteredRMSProp",
     "parseApplyFtrl", "parseApplyFtrlV2", "parseApplyMomentum", "parseApplyProximalAdagrad"]
  }

  /** Names starting with 'S' (4 of 7), from "SparseApplyProximalGradientDescent" to "SparseSegmentSqrtNWithNumSegments". */
  function TailsS4(): seq<string>
  {
    ["parseApplyProximalGradientDescent", "parseApplyRMSProp", "parseCross", "parseCrossHashed", "parseCrossV2",
     "parseFillEmptyRows", "parseFillEmptyRowsGrad", "parseReshape", "parseSegmentMean", "parseSegmentMeanGrad",
     "parseSegmentMeanWithNumSegments", "parseSegmentSqrtN", "parseSegmentSqrtNGrad", "parseSegmentSqrtNWithNumSegments"]
  }

  /** Names starting with 'S' (5 of 7), from "SparseSegmentSum" to "StackPop". */
  function TailsS5(): seq<string>
  {
    ["parseSegmentSum", "parseSegmentSumWithNumSegments", "parseToDense", "plit", "plitV",
     "qrt", "qrtGrad", "quare", "quaredDifference", "queeze",
     "tack", "tackClose", "tackCloseV2", "tackPop"]
  }

  /** Names starting with 'S' (6 of 7), from "StackPopV2" to "StridedSlice". */
  function TailsS6(): seq<string>
  {
    ["tackPopV2", "tackPush", "tackPushV2", "tackV2", "tatelessRandomGammaV2",
     "tatelessRandomNormal", "tatelessRandomPoisson", "tatelessRandomUniform", "tatelessRandomUniformFullInt", "tatelessRandomUniformInt",
     "tatelessTruncatedNormal", "taticRegexReplace", "topGradient", "tridedSlice"]
  }

  /** Names starting with 'S' (7 of 7), from "StridedSliceAssign" to "SymbolicGradient". */
  function TailsS7(): seq<string>
  {
    ["tridedSliceAssign", "tridedSliceGrad", "tringJoin", "tringSplit", "tringSplitV2",
     "tringToHashBucket", "tringToHashBucketFast", "tringToHashBucketStrong", "ub", "ubstr",
     "um", "witch", "ymbolicGradient"]
  }

  /** Names starting with 'T' (1 of 3), from "Tan" to "TensorArrayGrad". */
  function TailsT1(): seq<string>
  {
    ["an", "anh", "anhGrad", "emporaryVariable", "ensorArray",
     "ensorArrayClose", "ensorArrayCloseV2", "ensorArrayCloseV3", "ensorArrayConcat", "ensorArrayConcatV2",
     "ensorArrayConcatV3", "ensorArrayGather", "ensorArrayGatherV2", "ensorArrayGatherV3", "ensorArrayGrad"]
  }

  /** Names starting with 'T' (2 of 3), from "TensorArrayGradV2" to "TensorArraySplitV2". */
  function TailsT2(): seq<string>
  {
    ["ensorArrayGradV2", "ensorArrayGradV3", "ensorArrayGradWithShape", "ensorArrayPack", "ensorArrayRead",
     "ensorArrayReadV2", "ensorArrayReadV3", "ensorArrayScatter", "ensorArrayScatterV2", "ensorArrayScatterV3",
     "ensorArraySize", "ensorArraySizeV2", "ensorArraySizeV3", "ensorArraySplit", "ensorArraySplitV2"]
  }

  /** Names starting with 'T' (3 of 3), from "TensorArraySplitV3" to "TruncatedNormal". */
  function TailsT3(): seq<string>
  {
    ["ensorArraySplitV3", "ensorArrayUnpack", "ensorArrayV2", "ensorArrayV3", "ensorArrayWrite",
     "ensorArrayWriteV2", "ensorArrayWriteV3", "ile", "ileGrad", "imestamp",
     "opK", "opKV2", "ranspose", "runcateDiv", "runcatedNormal"]
  }

  /** Names starting with 'U', from "UnicodeDecode" to "UnsortedSegmentSum". */
  function TailsU(): seq<string>
  {
    ["nicodeDecode", "nicodeDecodeWithOffsets", "nicodeEncode", "nicodeTranscode", "nique",
     "niqueV2", "niqueWithCounts", "niqueWithCountsV2", "npack", "nsortedSegmentMax",
     "nsortedSegmentMin", "nsortedSegmentProd", "nsortedSegmentSum"]
  }

  /** Names starting with 'V', from "Variable" to "VariableV2". */
  function TailsV(): seq<string>
  {
    ["ariable", "ariableV2"]
  }

  /** Names starting with 'W', from "Where" to "Where". */
  function TailsW(): seq<string>
  {
    ["here"]
  }

  /** Names starting with 'X', from "Xdivy" to "Xlogy". */
  function TailsX(): seq<string>
  {
    ["divy", "logy"]
  }

  /** Names starting with 'Z', from "ZerosLike" to "ZerosLike". */
  function TailsZ(): seq<string>
  {
    ["erosLike"]
  }

  /** Names starting with '_', from "_Arg" to "_Send". */
  function TailsUnderscore(): seq<string>
  {
    ["Arg", "ArrayToList", "HostCast", "HostRecv", "HostSend",
     "ListToArray", "Recv", "Retval", "Send"]
  }

  /** The remainders of the listed names that start with c. */
  function Tails(c: char): seq<string>
  {
    if c < 'O' then
      if c < 'G' then
        if c < 'C' then
          if c < 'A' then
            []
          else
            if c < 'B' then
              TailsA1() + TailsA2() + TailsA3()
            else
              TailsB()
        else
          if c < 'E' then
            if c < 'D' then
              TailsC1() + TailsC2()
            else
              TailsD1() + TailsD2()
          else
            if c < 'F' then
              TailsE()
            else
              TailsF1() + TailsF2()
      else
        if c < 'J' then
          if c < 'H' then
            TailsG()
          else
            if c < 'I' then
              []
            else
              TailsI1() + TailsI2()
        else
          if c < 'M' then
            if c < 'L' then
              []
            else
              TailsL()
          else
            if c < 'N' then
              TailsM1() + TailsM2()
            else
              TailsN()
    else
      if c < 'V' then
        if c < 'R' then
          if c < 'P' then
            TailsO()
          else
            if c < 'Q' then
              TailsP1() + TailsP2()
            else
              TailsQ1() + TailsQ2()
        else
          if c < 'T' then
            if c < 'S' then
              TailsR1() + TailsR2() + TailsR3() + TailsR4() + TailsR5()
            else
              TailsS1() + TailsS2() + TailsS3() + TailsS4() + TailsS5() + TailsS6() + TailsS7()
          else
            if c < 'U' then
              TailsT1() + TailsT2() + TailsT3()
            else
              TailsU()
      else
        if c < 'Z' then
          if c < 'X' then
            if c < 'W' then
              TailsV()
            else
              TailsW()
          else
            if c < 'Y' then
              TailsX()
            else
              []
        else
          if c < '_' then
            if c < '[' then
              TailsZ()
            else
              []
          else
            if c < '`' then
              TailsUnderscore()
            else
              []
  }


  /** A name is in a table of remainders keyed by first character iff its
      remainder is listed under its first character. */
  predicate InTable(tails: char -> seq<string>, name: string)
  {
    |name| > 0 && name[1..] in tails(name[0])
  }

  /** The names a table of remainders spells out. */
  ghost predicate SpelledBy(tails: char -> seq<string>, name: string)
  {
    exists c, tail :: tail in tails(c) && name == [c] + tail
  }

  /** Looking a name up under its first character finds exactly the
      names the table spells: none is missed and none is made up. */
  lemma InTableIffSpelled(tails: char -> seq<string>, name: string)
    ensures InTable(tails, name) <==> SpelledBy(tails, name)
  {
    if |name| > 0 {
      assert name == [name[0]] + name[1..];
    }
    if SpelledBy(tails, name) {
      var c, tail :| tail in tails(c) && name == [c] + tail;
      assert name[0] == c && name[1..] == tail;
    }
  }

  /** IsWhitelistedFlexOp: whether the TensorFlow op name is exactly one of
      the fixed set of names the Flex delegate may run; the match is
      case-sensitive and on the whole name (InTableIffSpelled). */
  predicate IsWhitelistedFlexOp(name: string)
  {
    InTable(Tails, name)
  }

  lemma AbsListed()
    ensures IsWhitelistedFlexOp("Abs")
  {
  }

  lemma SendListed()
    ensures IsWhitelistedFlexOp("_Send")
  {
  }

  /** The remainders listed under 'A'. */
  lemma TailsOfA()
    ensures Tails('A') == TailsA1() + TailsA2() + TailsA3()
  {
  }

  lemma BNotInChunksOfA()
    ensures "b" !in TailsA1() + TailsA2() + TailsA3()
  {
  }

  /** "Ab" is a prefix of listed names but not itself listed. */
  lemma NoAbUnderA()
    ensures "b" !in Tails('A')
  {
    TailsOfA();
    BNotInChunksOfA();
  }

  /** Matching is case-sensitive: "Abs" is listed, "abs" is not. */
  lemma LowerCaseAbsNotListed()
    ensures !IsWhitelistedFlexOp("abs")
  {
  }

  /** Matching is on the whole name: a proper prefix of "Abs" is not listed. */
  lemma PrefixAbNotListed()
    ensures !IsWhitelistedFlexOp("Ab")
  {
    NoAbUnderA();
  }
}
