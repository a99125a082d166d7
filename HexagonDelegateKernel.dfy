// The Hexagon delegate kernel: the names of its states, the 64-bit cycle
// count of a performance record and the order the performance report
// sorts by, and the tensor checks of Init, Prepare and Invoke. The Hexagon
// NN library is abstract: the status codes it returns are parameters.
module HexagonDelegateKernel {
  import opened Common

  // ---------------------------------------------------------------------
  // Kernel states and their names
  // ---------------------------------------------------------------------

  datatype HexagonKernelState =
    | Healthy
    | FastRpcSetupFailed
    | FailedToInitGraph
    | FailedToPrepareGraph
    | MultipleInputs
    | InputRankNotSupported
    | MultipleOutputs
    | FailedToExecuteGraph

  /** StateToString: the enumerator's own name. */
  function StateToString(state: HexagonKernelState): (name: string)
    ensures |name| > 0
  {
    match state
    case Healthy => "HEALTHY"
    case FastRpcSetupFailed => "FAST_RPC_SETUP_FAILED"
    case FailedToInitGraph => "FAILED_TO_INIT_GRAPH"
    case FailedToPrepareGraph => "FAILED_TO_PREPARE_GRAPH"
    case MultipleInputs => "MULTIPLE_INPUTS"
    case InputRankNotSupported => "INPUT_RANK_NOT_SUPPORTED"
    case MultipleOutputs => "MULTIPLE_OUTPUTS"
    case FailedToExecuteGraph => "FAILED_TO_EXECUTE_GRAPH"
  }

  /** The state a name stands for, if any: the inverse of StateToString. */
  function StateOfName(name: string): Option<HexagonKernelState>
  {
    if name == "HEALTHY" then Some(Healthy)
    else if name == "FAST_RPC_SETUP_FAILED" then Some(FastRpcSetupFailed)
    else if name == "FAILED_TO_INIT_GRAPH" then Some(FailedToInitGraph)
    else if name == "FAILED_TO_PREPARE_GRAPH" then Some(FailedToPrepareGraph)
    else if name == "MULTIPLE_INPUTS" then Some(MultipleInputs)
    else if name == "INPUT_RANK_NOT_SUPPORTED" then Some(InputRankNotSupported)
    else if name == "MULTIPLE_OUTPUTS" then Some(MultipleOutputs)
    else if name == "FAILED_TO_EXECUTE_GRAPH" then Some(FailedToExecuteGraph)
    else None
  }

  /** The name of a state gives the state back. */
  lemma StateOfNameInverts(s: HexagonKernelState)
    ensures StateOfName(StateToString(s)) == Some(s)
  {
    match s
    case Healthy =>
    case FastRpcSetupFailed =>
    case FailedToInitGraph =>
    case FailedToPrepareGraph =>
    case MultipleInputs =>
    case InputRankNotSupported =>
    case MultipleOutputs =>
    case FailedToExecuteGraph =>
  }

  /** Every state has a name of its own: two states share a name only when
      they are the same state. */
  lemma StateNamesDistinct(s: HexagonKernelState, t: HexagonKernelState)
    ensures StateToString(s) == StateToString(t) <==> s == t
  {
    StateOfNameInverts(s);
    StateOfNameInverts(t);
  }

  // ---------------------------------------------------------------------
  // 64-bit cycle counts
  // ---------------------------------------------------------------------

  const Word: int := 0x1_0000_0000
  const DoubleWord: int := 0x1_0000_0000_0000_0000

  type uint32 = x: int | 0 <= x < 0x1_0000_0000
  type uint64 = x: int | 0 <= x < 0x1_0000_0000_0000_0000

  /** hexagon_nn_perfinfo: a node, its executions and its cycle count split
      into two 32-bit counters. */
  datatype PerfInfo = PerfInfo(nodeId: uint32, executions: uint32, counterLo: uint32, counterHi: uint32)

  /** Bitwise or of two naturals, bit by bit from the lowest. */
  function BitOr(a: nat, b: nat): nat
    decreases a + b
  {
    if a == 0 then b
    else if b == 0 then a
    else 2 * BitOr(a / 2, b / 2) + (if a % 2 == 1 || b % 2 == 1 then 1 else 0)
  }

  function Pow2(k: nat): (r: nat)
    ensures r > 0
  {
    if k == 0 then 1 else 2 * Pow2(k - 1)
  }

  /** `x << k` on a uint64: the bits shifted past bit 63 are lost. */
  function ShiftLeft64(x: uint64, k: nat): uint64
  {
    (x * Pow2(k)) % DoubleWord
  }

  /** GetCycles: the high counter widened to 64 bits, shifted left by 32,
      or-ed with the low counter. */
  function GetCycles(p: PerfInfo): nat
  {
    BitOr(ShiftLeft64(p.counterHi, 32), p.counterLo)
  }

  /** Or-ing a value below 2^k into a multiple of 2^k adds it. */
  lemma {:induction false} BitOrDisjoint(x: nat, y: nat, k: nat)
    requires y < Pow2(k)
    ensures BitOr(x * Pow2(k), y) == x * Pow2(k) + y
  {
    if k == 0 {
      assert y == 0;
    } else {
      var a := x * Pow2(k);
      assert a == 2 * (x * Pow2(k - 1));
      if a != 0 && y != 0 {
        assert a / 2 == x * Pow2(k - 1) && a % 2 == 0;
        assert y / 2 < Pow2(k - 1);
        BitOrDisjoint(x, y / 2, k - 1);
      }
    }
  }

  lemma Pow2Of32()
    ensures Pow2(32) == Word
  {
    assert Pow2(8) == 256;
    assert Pow2(16) == 256 * Pow2(8) by { Pow2Add(8, 8); }
    assert Pow2(32) == Pow2(16) * Pow2(16) by { Pow2Add(16, 16); }
  }

  lemma {:induction false} Pow2Add(j: nat, k: nat)
    ensures Pow2(j + k) == Pow2(j) * Pow2(k)
  {
    if k > 0 {
      Pow2Add(j, k - 1);
      assert Pow2(j + k) == 2 * Pow2(j + k - 1);
    }
  }

  /** The cycle count is exactly counter_hi * 2^32 + counter_lo, a 64-bit
      value: the shift loses no bits and the or adds. */
  lemma GetCyclesValue(p: PerfInfo)
    ensures GetCycles(p) == p.counterHi * Word + p.counterLo
    ensures GetCycles(p) < DoubleWord
  {
    Pow2Of32();
    var hi: int := p.counterHi;
    assert hi * Word < DoubleWord by {
      assert hi <= Word - 1;
      MulMonotone(Word - 1, hi, Word);
    }
    assert ShiftLeft64(p.counterHi, 32) == hi * Word;
    BitOrDisjoint(hi, p.counterLo, 32);
  }

  /** PerfInfoCmp: the descending order of the performance report. */
  predicate PerfInfoCmp(a: PerfInfo, b: PerfInfo)
  {
    GetCycles(a) > GetCycles(b)
  }

  /** Strictly greater cycle counts come first: comparing them compares the
      high counters, then the low ones. */
  lemma PerfInfoCmpByCounters(a: PerfInfo, b: PerfInfo)
    ensures PerfInfoCmp(a, b) <==>
              a.counterHi > b.counterHi || (a.counterHi == b.counterHi && a.counterLo > b.counterLo)
  {
    GetCyclesValue(a);
    GetCyclesValue(b);
    var ha: int, hb: int := a.counterHi, b.counterHi;
    if ha > hb {
      MulMonotone(ha, hb + 1, Word);
    } else if ha < hb {
      MulMonotone(hb, ha + 1, Word);
    }
  }

  /** The cycle count determines both counters. */
  lemma CyclesDetermineCounters(a: PerfInfo, b: PerfInfo)
    ensures GetCycles(a) == GetCycles(b) <==>
              a.counterHi == b.counterHi && a.counterLo == b.counterLo
  {
    PerfInfoCmpByCounters(a, b);
    PerfInfoCmpByCounters(b, a);
  }

  /** PerfInfoCmp is a strict weak order, as sorting requires: irreflexive,
      transitive, and records it cannot tell apart (equal cycles) are
      ordered alike against every other record. */
  lemma PerfInfoCmpStrictWeakOrder(a: PerfInfo, b: PerfInfo, c: PerfInfo)
    ensures !PerfInfoCmp(a, a)
    ensures PerfInfoCmp(a, b) ==> !PerfInfoCmp(b, a)
    ensures PerfInfoCmp(a, b) && PerfInfoCmp(b, c) ==> PerfInfoCmp(a, c)
    ensures !PerfInfoCmp(a, b) && !PerfInfoCmp(b, a) ==>
              (PerfInfoCmp(a, c) <==> PerfInfoCmp(b, c)) && (PerfInfoCmp(c, a) <==> PerfInfoCmp(c, b))
  {
  }

  // ---------------------------------------------------------------------
  // Tensors and the rank check
  // ---------------------------------------------------------------------

  datatype Status = TfLiteOk | TfLiteError

  /** kTfLiteOptionalTensor. */
  const OptionalTensor: int := -1

  /** kTfLiteMmapRo marks a constant tensor, which the graph holds as a
      constant node. */
  datatype AllocationType = MmapRo | OtherAllocation
  datatype Tensor = Tensor(allocation: AllocationType, rank: nat, bytes: nat)

  /** Every index names a tensor of the context or is the optional marker. */
  predicate ValidIndices(tensors: seq<Tensor>, indices: seq<int>)
  {
    forall i :: 0 <= i < |indices| ==> indices[i] == OptionalTensor || 0 <= indices[i] < |tensors|
  }

  /** A tensor the kernel passes to the graph at run time: present and not
      constant. */
  predicate IsRuntime(tensors: seq<Tensor>, index: int)
  {
    index != OptionalTensor && 0 <= index < |tensors| && tensors[index].allocation != MmapRo
  }

  /** A tensor the kernel accepts: optional, constant, or of rank at most 4. */
  predicate Supported(tensors: seq<Tensor>, index: int)
  {
    !IsRuntime(tensors, index) || tensors[index].rank <= 4
  }

  predicate AllSupported(tensors: seq<Tensor>, indices: seq<int>)
  {
    forall i :: 0 <= i < |indices| ==> Supported(tensors, indices[i])
  }

  /** The run-time tensors of a list, in order. */
  function RuntimeIndices(tensors: seq<Tensor>, indices: seq<int>): (r: seq<int>)
    ensures forall i :: 0 <= i < |r| ==> IsRuntime(tensors, r[i])
  {
    if indices == [] then []
    else
      var last := indices[|indices| - 1];
      RuntimeIndices(tensors, indices[..|indices| - 1]) + (if IsRuntime(tensors, last) then [last] else [])
  }

  /** The run-time tensors are exactly the entries of the list that are
      present and not constant. */
  lemma {:induction false} RuntimeIndicesMembers(tensors: seq<Tensor>, indices: seq<int>, x: int)
    ensures x in RuntimeIndices(tensors, indices) <==> x in indices && IsRuntime(tensors, x)
  {
    if indices != [] {
      var init := indices[..|indices| - 1];
      RuntimeIndicesMembers(tensors, init, x);
      assert indices == init + [indices[|indices| - 1]];
    }
  }

  /** Prepare checks inputs and outputs together, Invoke one list after the
      other: the two checks agree, so a prepared kernel never fails
      Invoke's rank check on the same tensors. */
  lemma PrepareCheckMatchesInvoke(tensors: seq<Tensor>, inputs: seq<int>, outputs: seq<int>)
    ensures AllSupported(tensors, inputs + outputs) <==>
              AllSupported(tensors, inputs) && AllSupported(tensors, outputs)
  {
    var all := inputs + outputs;
    if AllSupported(tensors, inputs) && AllSupported(tensors, outputs) {
      forall i | 0 <= i < |all|
        ensures Supported(tensors, all[i])
      {
        if i >= |inputs| {
          assert all[i] == outputs[i - |inputs|];
        }
      }
    }
    if AllSupported(tensors, all) {
      forall i | 0 <= i < |inputs|
        ensures Supported(tensors, inputs[i])
      {
        assert all[i] == inputs[i];
      }
      forall i | 0 <= i < |outputs|
        ensures Supported(tensors, outputs[i])
      {
        assert all[|inputs| + i] == outputs[i];
      }
    }
  }

  /** hexagon_nn_tensordef as the kernel fills it: which tensor's data, its
      length, and the valid length (left zero for outputs). */
  datatype TensorDef = TensorDef(tensorIndex: int, dataLen: nat, dataValidLen: nat)

  /** The definition Invoke fills for a run-time input or output tensor. */
  function Def(tensors: seq<Tensor>, index: int, isInput: bool): TensorDef
    requires 0 <= index < |tensors|
  {
    TensorDef(index, tensors[index].bytes, if isInput then tensors[index].bytes else 0)
  }

  /** The definitions of the run-time tensors of a list, in order. */
  function Defs(tensors: seq<Tensor>, indices: seq<int>, isInput: bool): (r: seq<TensorDef>)
  {
    if indices == [] then []
    else
      var last := indices[|indices| - 1];
      Defs(tensors, indices[..|indices| - 1], isInput) +
        (if IsRuntime(tensors, last) then [Def(tensors, last, isInput)] else [])
  }

  /** One definition per run-time tensor, in the same order. */
  lemma {:induction false} DefsOfRuntime(tensors: seq<Tensor>, indices: seq<int>, isInput: bool)
    ensures var r := RuntimeIndices(tensors, indices);
            |Defs(tensors, indices, isInput)| == |r| &&
            forall i :: 0 <= i < |r| ==> Defs(tensors, indices, isInput)[i] == Def(tensors, r[i], isInput)
  {
    if indices != [] {
      DefsOfRuntime(tensors, indices[..|indices| - 1], isInput);
    }
  }

  /** TfLiteHexagonDelegateOptions; a value-initialized one is all zero. */
  datatype HexagonOptions = HexagonOptions(debugLevel: int, powersaveLevel: int,
                                           printGraphProfile: bool, printGraphDebug: bool)
  const DefaultHexagonOptions: HexagonOptions := HexagonOptions(0, 0, false, false)

  class HexagonDelegateKernel {
    /** Whether the Hexagon NN interface was found. */
    var available: bool
    var state: HexagonKernelState
    var params: HexagonOptions
    var nodes: seq<int>

    constructor ()
      ensures !available && state == Healthy && params == DefaultHexagonOptions && nodes == []
    {
      available := false;
      state := Healthy;
      params := DefaultHexagonOptions;
      nodes := [];
    }

    /** Init: find the interface, take the delegate's options (the defaults
        when the delegate has none), configure and initialize the graph,
        set the debug and powersave levels, record the nodes to replace and
        build the graph. Only a failed graph initialization changes the
        state. `delegateData` is None without a delegate, Some(None) for a
        delegate without options. */
    method Init(found: bool, delegateData: Option<Option<HexagonOptions>>,
                configError: int, initError: int, debugError: int, powersaveError: int,
                nodesToReplace: seq<int>, buildStatus: Status)
      returns (status: Status)
      modifies this
      ensures available == found
      ensures !found ==> status == TfLiteError && params == old(params) && nodes == old(nodes)
      ensures found ==>
                params == (if delegateData.None? then old(params)
                           else if delegateData.value.None? then DefaultHexagonOptions
                           else delegateData.value.value)
      ensures found && (configError != 0 || initError != 0 || debugError != 0 || powersaveError != 0) ==>
                status == TfLiteError && nodes == old(nodes)
      ensures found && configError == 0 && initError == 0 && debugError == 0 && powersaveError == 0 ==>
                status == buildStatus && nodes == old(nodes) + nodesToReplace
      ensures state == (if found && configError == 0 && initError != 0 then FailedToInitGraph else old(state))
    {
      available := found;
      if !found {
        return TfLiteError;
      }
      if delegateData.Some? {
        params := if delegateData.value.None? then DefaultHexagonOptions else delegateData.value.value;
      }
      if configError != 0 {
        return TfLiteError;
      }
      if initError != 0 {
        state := FailedToInitGraph;
        return TfLiteError;
      }
      if debugError != 0 || powersaveError != 0 {
        return TfLiteError;
      }
      var recorded := nodes;
      var i := 0;
      while i < |nodesToReplace|
        invariant 0 <= i <= |nodesToReplace|
        invariant recorded == nodes + nodesToReplace[..i]
      {
        recorded := recorded + [nodesToReplace[i]];
        i := i + 1;
      }
      assert nodesToReplace[..i] == nodesToReplace;
      nodes := recorded;
      return buildStatus;
    }

    /** Invoke: skip optional tensors, leave constant ones to the graph,
        reject a run-time input or output of rank above 4, and otherwise
        execute with one definition per run-time tensor, in order.
        `reported` is the state named in the error report, if any. */
    method Invoke(tensors: seq<Tensor>, inputs: seq<int>, outputs: seq<int>, executeError: int)
      returns (status: Status, reported: Option<HexagonKernelState>,
               inputDefs: seq<TensorDef>, outputDefs: seq<TensorDef>)
      requires ValidIndices(tensors, inputs) && ValidIndices(tensors, outputs)
      ensures !available ==> status == TfLiteError && reported == None
      ensures available && !(AllSupported(tensors, inputs) && AllSupported(tensors, outputs)) ==>
                status == TfLiteError && reported == Some(InputRankNotSupported)
      ensures available && AllSupported(tensors, inputs) && AllSupported(tensors, outputs) ==>
                inputDefs == Defs(tensors, inputs, true) && outputDefs == Defs(tensors, outputs, false) &&
                (if executeError == 0 then status == TfLiteOk && reported == None
                 else status == TfLiteError && reported == Some(FailedToExecuteGraph))
    {
      inputDefs, outputDefs := [], [];
      if !available {
        return TfLiteError, None, inputDefs, outputDefs;
      }
      var ok;
      ok, inputDefs := CollectDefs(tensors, inputs, true);
      if !ok {
        return TfLiteError, Some(InputRankNotSupported), inputDefs, outputDefs;
      }
      ok, outputDefs := CollectDefs(tensors, outputs, false);
      if !ok {
        return TfLiteError, Some(InputRankNotSupported), inputDefs, outputDefs;
      }
      if executeError != 0 {
        return TfLiteError, Some(FailedToExecuteGraph), inputDefs, outputDefs;
      }
      return TfLiteOk, None, inputDefs, outputDefs;
    }

    /** Prepare: prepare the graph (a failure sets FAILED_TO_PREPARE_GRAPH),
        then check the inputs followed by the outputs, rejecting a run-time
        tensor of rank above 4. */
    method Prepare(tensors: seq<Tensor>, inputs: seq<int>, outputs: seq<int>, prepareStatus: int)
      returns (status: Status, reported: Option<HexagonKernelState>)
      requires ValidIndices(tensors, inputs) && ValidIndices(tensors, outputs)
      modifies this
      ensures available == old(available) && params == old(params) && nodes == old(nodes)
      ensures !available ==> status == TfLiteError && reported == None && state == old(state)
      ensures available && prepareStatus != 0 ==>
                status == TfLiteError && reported == Some(FailedToPrepareGraph) && state == FailedToPrepareGraph
      ensures available && prepareStatus == 0 ==>
                state == old(state) &&
                (if AllSupported(tensors, inputs + outputs) then status == TfLiteOk && reported == None
                 else status == TfLiteError && reported == Some(InputRankNotSupported))
    {
      if !available {
        return TfLiteError, None;
      }
      if prepareStatus != 0 {
        state := FailedToPrepareGraph;
        return TfLiteError, Some(FailedToPrepareGraph);
      }
      var all := inputs + outputs;
      var i := 0;
      while i < |all|
        invariant 0 <= i <= |all|
        invariant forall k :: 0 <= k < i ==> Supported(tensors, all[k])
      {
        var index := all[i];
        if index != OptionalTensor {
          assert 0 <= index < |tensors| by {
            if i < |inputs| { assert index == inputs[i]; } else { assert index == outputs[i - |inputs|]; }
          }
          if tensors[index].allocation != MmapRo && tensors[index].rank > 4 {
            return TfLiteError, Some(InputRankNotSupported);
          }
        }
        i := i + 1;
      }
      return TfLiteOk, None;
    }
  }

  /** One of Invoke's loops: the definitions of the run-time tensors of
      `indices`, or false at the first run-time tensor of rank above 4. */
  method CollectDefs(tensors: seq<Tensor>, indices: seq<int>, isInput: bool)
    returns (ok: bool, defs: seq<TensorDef>)
    requires ValidIndices(tensors, indices)
    ensures ok <==> AllSupported(tensors, indices)
    ensures ok ==> defs == Defs(tensors, indices, isInput)
  {
    defs := [];
    var i := 0;
    while i < |indices|
      invariant 0 <= i <= |indices|
      invariant forall k :: 0 <= k < i ==> Supported(tensors, indices[k])
      invariant defs == Defs(tensors, indices[..i], isInput)
    {
      var index := indices[i];
      assert indices[..i + 1][..i] == indices[..i];
      if index != OptionalTensor && tensors[index].allocation != MmapRo {
        if tensors[index].rank > 4 {
          return false, defs;
        }
        defs := defs + [Def(tensors, index, isInput)];
      }
      i := i + 1;
    }
    assert indices[..i] == indices;
    return true, defs;
  }
}
