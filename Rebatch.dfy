// Rebatch: the tf.data graph rewrite that divides the batch size of a
// dataset pipeline by the number of workers. From the graph's sink it walks
// back through the dataset ops, rewriting the first batching op on every
// path, recursing into zipped and concatenated inputs and into the mapped
// functions of flat-map style ops.
module Rebatch {
  import opened Common

  const BatchDatasetOps: seq<string> :=
    ["BatchDataset", "BatchDatasetV2", "ExperimentalMapAndBatchDataset",
     "PaddedBatchDataset", "PaddedBatchDatasetV2"]

  const MultipleInputsDatasetOps: seq<string> := ["ConcatenateDataset", "ZipDataset"]

  const PassThroughOps: seq<string> :=
    ["CacheDataset", "FilterDataset", "FilterByLastComponentDataset", "Identity",
     "MapDataset", "ModelDataset", "OptimizeDataset", "ParallelMapDataset",
     "PrefetchDataset", "ReduceDataset", "RepeatDataset", "ShardDataset",
     "ShuffleAndRepeatDataset", "ShuffleDataset", "SkipDataset", "TakeDataset",
     "WindowDataset"]

  const FuncDatasetOps: seq<string> := ["FlatMapDataset", "InterleaveDataset", "ParallelInterleaveDatasetV2"]

  const SourceDatasetOps: seq<string> :=
    ["FixedLengthRecordDataset", "FixedLengthRecordDatasetV2", "GeneratorDataset",
     "RangeDataset", "SparseTensorsSliceDataset", "TensorDataset",
     "TensorSliceDataset", "TextLineDataset", "TFRecordDataset"]

  /** IsDatasetNodeOfType: the list is scanned from the front for the
      node's op name. */
  function IsDatasetNodeOfType(op: string, arr: seq<string>): (r: bool)
  {
    if arr == [] then false else op == arr[0] || IsDatasetNodeOfType(op, arr[1..])
  }

  /** The scan finds the op exactly when the op is one of the list's
      names. */
  lemma {:induction false} IsDatasetNodeOfTypeMeans(op: string, arr: seq<string>)
    ensures IsDatasetNodeOfType(op, arr) <==> op in arr
  {
    if arr != [] {
      IsDatasetNodeOfTypeMeans(op, arr[1..]);
      assert arr == [arr[0]] + arr[1..];
    }
  }

  /** The value feeding a batching op's batch_size input: the original
      input, or that value cast to float, divided by the number of workers
      and cast back, as MutateBatchSize wires it. */
  datatype SizeExpr = BatchSizeInput | DividedBy(of: SizeExpr, workers: int)

  /** A NodeDef: its name, op, regular inputs by node name, the name of
      its "f" function attribute, and (for a batching op) what feeds its
      batch size. */
  datatype Node = Node(name: string, op: string, inputs: seq<string>, func: string, batchSize: SizeExpr)

  /** A graph with its function library: each function is the node list
      of its body. */
  datatype Graph = Graph(nodes: seq<Node>, lib: map<string, seq<Node>>)

  // ---------------------------------------------------------------------
  // Finding the sink node
  // ---------------------------------------------------------------------

  /** The position of the last of the first i nodes with the given name;
      a later node of the same name replaces an earlier one in the name map. */
  function LastIndexBefore(nodes: seq<Node>, i: nat, name: string): (r: Option<nat>)
    requires i <= |nodes|
    ensures r.Some? ==> r.value < i && nodes[r.value].name == name
                        && forall j :: r.value < j < i ==> nodes[j].name != name
    ensures r.None? ==> forall j :: 0 <= j < i ==> nodes[j].name != name
  {
    if i == 0 then None
    else if nodes[i - 1].name == name then Some(i - 1)
    else LastIndexBefore(nodes, i - 1, name)
  }

  function LastIndex(nodes: seq<Node>, name: string): Option<nat>
  {
    LastIndexBefore(nodes, |nodes|, name)
  }

  /** How often the name occurs among the first k entries of an input list. */
  function CountIn(inputs: seq<string>, k: nat, name: string): nat
    requires k <= |inputs|
  {
    if k == 0 then 0 else CountIn(inputs, k - 1, name) + (if inputs[k - 1] == name then 1 else 0)
  }

  /** How often the name is an input of the first i nodes. */
  function CountBefore(nodes: seq<Node>, i: nat, name: string): nat
    requires i <= |nodes|
  {
    if i == 0 then 0 else CountBefore(nodes, i - 1, name) + CountIn(nodes[i - 1].inputs, |nodes[i - 1].inputs|, name)
  }

  /** The number of nodes' inputs naming the node: zero means the name
      feeds no node. */
  function InputUses(nodes: seq<Node>, name: string): nat
  {
    CountBefore(nodes, |nodes|, name)
  }

  /** A name never counted is not an input of any node. */
  lemma {:induction false} CountBeforeZero(nodes: seq<Node>, i: nat, name: string)
    requires i <= |nodes| && CountBefore(nodes, i, name) == 0
    ensures forall j, k :: 0 <= j < i && 0 <= k < |nodes[j].inputs| ==> nodes[j].inputs[k] != name
  {
    if i > 0 {
      CountBeforeZero(nodes, i - 1, name);
      CountInZero(nodes[i - 1].inputs, |nodes[i - 1].inputs|, name);
    }
  }

  lemma {:induction false} CountInZero(inputs: seq<string>, k: nat, name: string)
    requires k <= |inputs| && CountIn(inputs, k, name) == 0
    ensures forall m :: 0 <= m < k ==> inputs[m] != name
  {
    if k > 0 {
      CountInZero(inputs, k - 1, name);
    }
  }

  lemma {:induction false} CountInPositive(inputs: seq<string>, k: nat, m: nat, name: string)
    requires m < k <= |inputs| && inputs[m] == name
    ensures CountIn(inputs, k, name) > 0
  {
    if m < k - 1 {
      CountInPositive(inputs, k - 1, m, name);
    }
  }

  lemma {:induction false} CountBeforePositive(nodes: seq<Node>, i: nat, j: nat, k: nat, name: string)
    requires j < i <= |nodes| && k < |nodes[j].inputs| && nodes[j].inputs[k] == name
    ensures CountBefore(nodes, i, name) > 0
  {
    if j < i - 1 {
      CountBeforePositive(nodes, i - 1, j, k, name);
    } else {
      CountInPositive(nodes[j].inputs, |nodes[j].inputs|, k, name);
    }
  }

  /** The node the name map holds for node i's name qualifies: its name is
      an input of no node and it has at least one input. */
  predicate IsSinkCandidate(nodes: seq<Node>, i: nat)
    requires i < |nodes|
  {
    var n := nodes[i].name;
    var last := LastIndex(nodes, n);
    InputUses(nodes, n) == 0 && last.Some? && |nodes[last.value].inputs| > 0
  }

  /** The first qualifying name in node order, as the node the name map
      holds for it. */
  function FirstSinkFrom(nodes: seq<Node>, i: nat): (r: Option<nat>)
    requires i <= |nodes|
    ensures r.Some? ==> r.value < |nodes|
    decreases |nodes| - i
  {
    if i == |nodes| then None
    else if IsSinkCandidate(nodes, i) then LastIndex(nodes, nodes[i].name)
    else FirstSinkFrom(nodes, i + 1)
  }

  /** The sink found is a node whose name is an input of no node and which
      has at least one input; none is found only when no node is such. */
  lemma {:induction false} FirstSinkMeans(nodes: seq<Node>, i: nat)
    requires i <= |nodes|
    decreases |nodes| - i
    ensures var r := FirstSinkFrom(nodes, i);
            (r.Some? ==> r.value < |nodes| && |nodes[r.value].inputs| > 0
                         && forall j, k :: 0 <= j < |nodes| && 0 <= k < |nodes[j].inputs| ==>
                              nodes[j].inputs[k] != nodes[r.value].name)
            && (r.None? <==> forall j :: i <= j < |nodes| ==> !IsSinkCandidate(nodes, j))
  {
    if i < |nodes| {
      FirstSinkMeans(nodes, i + 1);
      if IsSinkCandidate(nodes, i) {
        CountBeforeZero(nodes, |nodes|, nodes[i].name);
      }
    }
  }

  /** A node whose name feeds some node is never returned as the sink. */
  lemma UsedNodeIsNotSink(nodes: seq<Node>, j: nat, k: nat)
    requires j < |nodes| && k < |nodes[j].inputs|
    ensures var r := FirstSinkFrom(nodes, 0);
            r.Some? ==> nodes[r.value].name != nodes[j].inputs[k]
  {
    FirstSinkMeans(nodes, 0);
  }

  /** The count a hash map holds for a name, default-inserted as 0. */
  function Get(m: map<string, int>, name: string): int
  {
    if name in m then m[name] else 0
  }

  /** FindSinkNode's first loop: each name maps to the position of its
      last node, and every node name starts with an input count of 0. */
  method IndexNames(nodes: seq<Node>) returns (allNodeNames: map<string, int>, nodeInputMap: map<string, int>)
    ensures forall n :: n in allNodeNames <==> LastIndex(nodes, n).Some?
    ensures forall n :: n in allNodeNames ==> allNodeNames[n] == LastIndex(nodes, n).value
    ensures forall n :: n in nodeInputMap <==> n in allNodeNames
    ensures forall n :: n in nodeInputMap ==> nodeInputMap[n] == 0
  {
    allNodeNames := map[];
    nodeInputMap := map[];
    var i := 0;
    while i < |nodes|
      invariant 0 <= i <= |nodes|
      invariant forall n :: n in allNodeNames <==> LastIndexBefore(nodes, i, n).Some?
      invariant forall n :: n in allNodeNames ==> allNodeNames[n] == LastIndexBefore(nodes, i, n).value
      invariant forall n :: n in nodeInputMap <==> n in allNodeNames
      invariant forall n :: n in nodeInputMap ==> nodeInputMap[n] == 0
    {
      allNodeNames := allNodeNames[nodes[i].name := i];
      nodeInputMap := nodeInputMap[nodes[i].name := 0];
      i := i + 1;
    }
  }

  /** FindSinkNode's second loop: every input name's count is raised by
      one per use, inserting names that are not nodes. */
  method CountInputs(nodes: seq<Node>, start: map<string, int>) returns (nodeInputMap: map<string, int>)
    requires forall n :: n in start ==> start[n] == 0
    ensures forall n :: n in start ==> n in nodeInputMap
    ensures forall n :: Get(nodeInputMap, n) == InputUses(nodes, n)
  {
    nodeInputMap := start;
    var i := 0;
    while i < |nodes|
      invariant 0 <= i <= |nodes|
      invariant forall n :: n in start ==> n in nodeInputMap
      invariant forall n :: Get(nodeInputMap, n) == CountBefore(nodes, i, n)
    {
      var inputs := nodes[i].inputs;
      var k := 0;
      while k < |inputs|
        invariant 0 <= k <= |inputs|
        invariant forall n :: n in start ==> n in nodeInputMap
        invariant forall n :: Get(nodeInputMap, n) == CountBefore(nodes, i, n) + CountIn(inputs, k, n)
      {
        nodeInputMap := nodeInputMap[inputs[k] := Get(nodeInputMap, inputs[k]) + 1];
        k := k + 1;
      }
      i := i + 1;
    }
  }

  /** FindSinkNode: the name map and input counts are filled by loops;
      the counts are then scanned, here in the nodes' order. */
  method FindSinkNode(nodes: seq<Node>) returns (r: Result<Node>)
    ensures FirstSinkFrom(nodes, 0).None? ==> r == Failure(InvalidArgument)
    ensures FirstSinkFrom(nodes, 0).Some? ==> r == Success(nodes[FirstSinkFrom(nodes, 0).value])
  {
    var allNodeNames, start := IndexNames(nodes);
    var nodeInputMap := CountInputs(nodes, start);
    var i := 0;
    while i < |nodes|
      invariant 0 <= i <= |nodes|
      invariant FirstSinkFrom(nodes, i) == FirstSinkFrom(nodes, 0)
    {
      var name := nodes[i].name;
      assert name in allNodeNames by {
        assert LastIndexBefore(nodes, |nodes|, name).Some?;
      }
      var candidate := Get(nodeInputMap, name) == 0 && |nodes[allNodeNames[name]].inputs| > 0;
      assert candidate == IsSinkCandidate(nodes, i);
      if candidate {
        return Success(nodes[allNodeNames[name]]);
      }
      i := i + 1;
    }
    return Failure(InvalidArgument);
  }

  // ---------------------------------------------------------------------
  // Rewriting from the sink
  // ---------------------------------------------------------------------

  /** What a rewrite ends in: the rewritten graph, an error status, or a
      state the source does not survive (an input or function that is not
      there, or recursion beyond the depth bound). */
  datatype Outcome = Rewritten(graph: Graph) | Rejected(code: Code) | Stuck

  /** MutateBatchSize: the node's batch_size input now reads the old value
      divided by the number of workers. */
  function MutateBatchSize(g: Graph, idx: nat, numWorkers: int): (r: Graph)
    requires idx < |g.nodes|
  {
    var n := g.nodes[idx];
    Graph(g.nodes[idx := n.(batchSize := DividedBy(n.batchSize, numWorkers))], g.lib)
  }

  /** Functions of the optimised body's library added where the outer
      library has no function of that name. */
  function AddMissing(lib: map<string, seq<Node>>, added: map<string, seq<Node>>): (r: map<string, seq<Node>>)
    ensures r.Keys == lib.Keys + added.Keys
    ensures forall f :: f in lib ==> r[f] == lib[f]
  {
    map f | f in lib.Keys + added.Keys :: if f in lib then lib[f] else added[f]
  }

  /** The graph after a function body was rewritten: the nodes are
      unchanged, functions the rewrite created are added, and the function
      gets the rewritten body. */
  function ReplaceFunction(g: Graph, f: string, body: Graph): (r: Graph)
    ensures r.nodes == g.nodes && r.lib.Keys == g.lib.Keys + body.lib.Keys + {f}
    ensures r.lib[f] == body.nodes
    ensures forall h :: h in g.lib && h != f ==> r.lib[h] == g.lib[h]
  {
    Graph(g.nodes, AddMissing(g.lib, body.lib)[f := body.nodes])
  }

  /** The branch RecursivelyHandleOp takes for an op, the lists tried in
      the source's order. */
  datatype OpKind = BatchOp | MultipleInputsOp | PassThroughOp | FuncOp | SourceOp | UnsupportedOp

  function KindOf(op: string): (k: OpKind)
  {
    if IsDatasetNodeOfType(op, BatchDatasetOps) then BatchOp
    else if IsDatasetNodeOfType(op, MultipleInputsDatasetOps) then MultipleInputsOp
    else if IsDatasetNodeOfType(op, PassThroughOps) then PassThroughOp
    else if IsDatasetNodeOfType(op, FuncDatasetOps) then FuncOp
    else if IsDatasetNodeOfType(op, SourceDatasetOps) then SourceOp
    else UnsupportedOp
  }

  /** RecursivelyHandleOp on node idx, bounded by fuel. */
  function HandleOp(g: Graph, idx: nat, numWorkers: int, fuel: nat): (r: Outcome)
    requires idx < |g.nodes|
    decreases fuel, 1, 0
  {
    var node := g.nodes[idx];
    if fuel == 0 then Stuck
    else match KindOf(node.op)
      case BatchOp => Rewritten(MutateBatchSize(g, idx, numWorkers))
      case MultipleInputsOp => HandleInputs(g, node.inputs, 0, numWorkers, fuel - 1)
      case PassThroughOp => HandlePassThrough(g, node.inputs, numWorkers, fuel - 1)
      case FuncOp => HandleFunc(g, node.func, numWorkers, fuel - 1)
      case SourceOp => Rejected(InvalidArgument)
      case UnsupportedOp => Rejected(InvalidArgument)
  }

  /** A pass-through op: the walk continues at the node of input 0. */
  function HandlePassThrough(g: Graph, inputs: seq<string>, numWorkers: int, fuel: nat): (r: Outcome)
    decreases fuel, 2, 0
  {
    if |inputs| == 0 then Stuck
    else match LastIndex(g.nodes, inputs[0])
      case None => Stuck
      case Some(j) => HandleOp(g, j, numWorkers, fuel)
  }

  /** A flat-map style op: the body of function f is rewritten as a graph
      of its own; if that is rejected, the status is dropped. */
  function HandleFunc(g: Graph, f: string, numWorkers: int, fuel: nat): (r: Outcome)
    decreases fuel, 4, 0
  {
    if f !in g.lib then Stuck
    else match OptimizeGraph(g.lib[f], g.lib, numWorkers, fuel)
      case Stuck => Stuck
      case Rejected(_) => Rewritten(g)
      case Rewritten(body) => Rewritten(ReplaceFunction(g, f, body))
  }

  /** The loop over a multi-input op's inputs from position i, each handled
      in the graph left by the previous one; the first failure stops it. */
  function HandleInputs(g: Graph, inputs: seq<string>, i: nat, numWorkers: int, fuel: nat): (r: Outcome)
    requires i <= |inputs|
    decreases fuel, 2, |inputs| - i
  {
    if i == |inputs| then Rewritten(g)
    else match LastIndex(g.nodes, inputs[i])
      case None => Stuck
      case Some(j) =>
        match HandleOp(g, j, numWorkers, fuel)
        case Rewritten(g2) => HandleInputs(g2, inputs, i + 1, numWorkers, fuel)
        case other => other
  }

  /** OptimizeGraph: find the sink of the graph and handle it; no sink is
      InvalidArgument. */
  function OptimizeGraph(nodes: seq<Node>, lib: map<string, seq<Node>>, numWorkers: int, fuel: nat): (r: Outcome)
    decreases fuel, 3, 0
  {
    match FirstSinkFrom(nodes, 0)
    case None => Rejected(InvalidArgument)
    case Some(s) => HandleOp(Graph(nodes, lib), s, numWorkers, fuel)
  }

  /** The op classes are disjoint, so each op takes exactly one branch of
      the dispatch. */
  lemma MultipleInputsOpApart(op: string)
    requires op in MultipleInputsDatasetOps
    ensures op !in BatchDatasetOps
  {
  }

  lemma PassThroughOpApart(op: string)
    requires op in PassThroughOps
    ensures op !in BatchDatasetOps && op !in MultipleInputsDatasetOps
  {
  }

  lemma FuncOpApart(op: string)
    requires op in FuncDatasetOps
    ensures op !in BatchDatasetOps && op !in MultipleInputsDatasetOps && op !in PassThroughOps
  {
  }

  lemma SourceOpApart(op: string)
    requires op in SourceDatasetOps
    ensures op !in BatchDatasetOps && op !in MultipleInputsDatasetOps
            && op !in PassThroughOps && op !in FuncDatasetOps
  {
    SourceNotPassThrough(op);
  }

  lemma SourceNotPassThrough(op: string)
    requires op in SourceDatasetOps
    ensures op !in PassThroughOps
  {
  }

  /** Each op takes the branch of the one list it is in, and an op in no
      list the unsupported branch. */
  lemma KindOfMeans(op: string)
    ensures KindOf(op) == BatchOp <==> op in BatchDatasetOps
    ensures KindOf(op) == MultipleInputsOp <==> op in MultipleInputsDatasetOps
    ensures KindOf(op) == PassThroughOp <==> op in PassThroughOps
    ensures KindOf(op) == FuncOp <==> op in FuncDatasetOps
    ensures KindOf(op) == SourceOp <==> op in SourceDatasetOps
    ensures KindOf(op) == UnsupportedOp <==>
              op !in BatchDatasetOps && op !in MultipleInputsDatasetOps && op !in PassThroughOps
              && op !in FuncDatasetOps && op !in SourceDatasetOps
  {
    IsDatasetNodeOfTypeMeans(op, BatchDatasetOps);
    IsDatasetNodeOfTypeMeans(op, MultipleInputsDatasetOps);
    IsDatasetNodeOfTypeMeans(op, PassThroughOps);
    IsDatasetNodeOfTypeMeans(op, FuncDatasetOps);
    IsDatasetNodeOfTypeMeans(op, SourceDatasetOps);
    if op in MultipleInputsDatasetOps {
      MultipleInputsOpApart(op);
    }
    if op in PassThroughOps {
      PassThroughOpApart(op);
    }
    if op in FuncDatasetOps {
      FuncOpApart(op);
    }
    if op in SourceDatasetOps {
      SourceOpApart(op);
    }
  }

  /** A batching op is rewritten and the walk stops there. */
  lemma BatchOpRewritten(g: Graph, idx: nat, numWorkers: int, fuel: nat)
    requires idx < |g.nodes| && fuel > 0 && g.nodes[idx].op in BatchDatasetOps
    ensures HandleOp(g, idx, numWorkers, fuel) == Rewritten(MutateBatchSize(g, idx, numWorkers))
  {
    KindOfMeans(g.nodes[idx].op);
  }

  /** Reaching a source dataset before any batching op is InvalidArgument,
      and so is an op that is in none of the lists. */
  lemma SourceOrUnsupportedRejected(g: Graph, idx: nat, numWorkers: int, fuel: nat)
    requires idx < |g.nodes| && fuel > 0
    requires var op := g.nodes[idx].op;
             op in SourceDatasetOps
             || (op !in BatchDatasetOps && op !in MultipleInputsDatasetOps && op !in PassThroughOps
                 && op !in FuncDatasetOps)
    ensures HandleOp(g, idx, numWorkers, fuel) == Rejected(InvalidArgument)
  {
    KindOfMeans(g.nodes[idx].op);
  }

  /** A pass-through op recurses into the node of its first input only. */
  lemma PassThroughFollowsInputZero(g: Graph, idx: nat, numWorkers: int, fuel: nat)
    requires idx < |g.nodes| && fuel > 0 && g.nodes[idx].op in PassThroughOps
    requires |g.nodes[idx].inputs| > 0 && LastIndex(g.nodes, g.nodes[idx].inputs[0]).Some?
    ensures HandleOp(g, idx, numWorkers, fuel)
            == HandleOp(g, LastIndex(g.nodes, g.nodes[idx].inputs[0]).value, numWorkers, fuel - 1)
  {
    KindOfMeans(g.nodes[idx].op);
  }

  /** A flat-map style op rewrites the body of its function; when that
      rewrite is rejected the error is dropped and the graph is unchanged. */
  lemma FuncOpRewritesBody(g: Graph, idx: nat, numWorkers: int, fuel: nat)
    requires idx < |g.nodes| && fuel > 0 && g.nodes[idx].op in FuncDatasetOps && g.nodes[idx].func in g.lib
    ensures var f := g.nodes[idx].func;
            var body := OptimizeGraph(g.lib[f], g.lib, numWorkers, fuel - 1);
            (body.Rejected? ==> HandleOp(g, idx, numWorkers, fuel) == Rewritten(g))
            && (body.Rewritten? ==> HandleOp(g, idx, numWorkers, fuel) == Rewritten(ReplaceFunction(g, f, body.graph)))
  {
    KindOfMeans(g.nodes[idx].op);
  }

  /** A multi-input op succeeds only if handling every one of its inputs,
      in order, succeeds. */
  lemma MultiInputHandlesAll(g: Graph, idx: nat, numWorkers: int, fuel: nat)
    requires idx < |g.nodes| && fuel > 0 && g.nodes[idx].op in MultipleInputsDatasetOps
    ensures HandleOp(g, idx, numWorkers, fuel) == HandleInputs(g, g.nodes[idx].inputs, 0, numWorkers, fuel - 1)
  {
    KindOfMeans(g.nodes[idx].op);
  }

  /** e2 is e divided zero or more times by the number of workers. */
  predicate DividedFrom(e2: SizeExpr, e: SizeExpr, numWorkers: int)
    decreases e2
  {
    e2 == e || (e2.DividedBy? && e2.workers == numWorkers && DividedFrom(e2.of, e, numWorkers))
  }

  lemma {:induction false} DividedFromTrans(e3: SizeExpr, e2: SizeExpr, e: SizeExpr, numWorkers: int)
    requires DividedFrom(e3, e2, numWorkers) && DividedFrom(e2, e, numWorkers)
    ensures DividedFrom(e3, e, numWorkers)
    decreases e3
  {
    if e3 != e2 {
      DividedFromTrans(e3.of, e2, e, numWorkers);
    }
  }

  /** A rewrite keeps every node's name, op, inputs and function, and only
      the batch sizes of batching ops change, each by further division by
      the number of workers. */
  predicate Refines(g2: Graph, g: Graph, numWorkers: int)
  {
    |g2.nodes| == |g.nodes|
    && forall i :: 0 <= i < |g.nodes| ==>
         g2.nodes[i].name == g.nodes[i].name && g2.nodes[i].op == g.nodes[i].op
         && g2.nodes[i].inputs == g.nodes[i].inputs && g2.nodes[i].func == g.nodes[i].func
         && DividedFrom(g2.nodes[i].batchSize, g.nodes[i].batchSize, numWorkers)
         && (g2.nodes[i].batchSize != g.nodes[i].batchSize ==> KindOf(g.nodes[i].op) == BatchOp)
  }

  lemma RefinesTrans(g3: Graph, g2: Graph, g: Graph, numWorkers: int)
    requires Refines(g3, g2, numWorkers) && Refines(g2, g, numWorkers)
    ensures Refines(g3, g, numWorkers)
  {
    forall i | 0 <= i < |g.nodes|
      ensures DividedFrom(g3.nodes[i].batchSize, g.nodes[i].batchSize, numWorkers)
    {
      DividedFromTrans(g3.nodes[i].batchSize, g2.nodes[i].batchSize, g.nodes[i].batchSize, numWorkers);
    }
  }

  lemma RefinesRefl(g: Graph, numWorkers: int)
    ensures Refines(g, g, numWorkers)
  {
  }

  /** MutateBatchSize divides the batch size of the batching op it is
      given and changes nothing else. */
  lemma MutateBatchSizeRefines(g: Graph, idx: nat, numWorkers: int)
    requires idx < |g.nodes| && KindOf(g.nodes[idx].op) == BatchOp
    ensures Refines(MutateBatchSize(g, idx, numWorkers), g, numWorkers)
    ensures MutateBatchSize(g, idx, numWorkers).nodes[idx].batchSize == DividedBy(g.nodes[idx].batchSize, numWorkers)
  {
    var g2 := MutateBatchSize(g, idx, numWorkers);
    assert g2.nodes[idx].batchSize.of == g.nodes[idx].batchSize;
  }

  /** Whatever the walk rewrites, the graph keeps its shape and only batch
      sizes of batching ops are divided. */
  lemma {:induction false} HandleOpRefines(g: Graph, idx: nat, numWorkers: int, fuel: nat)
    requires idx < |g.nodes|
    decreases fuel, 1, 0
    ensures var r := HandleOp(g, idx, numWorkers, fuel);
            r.Rewritten? ==> Refines(r.graph, g, numWorkers)
  {
    var node := g.nodes[idx];
    if fuel > 0 {
      match KindOf(node.op)
      case BatchOp =>
        MutateBatchSizeRefines(g, idx, numWorkers);
      case MultipleInputsOp =>
        HandleInputsRefines(g, node.inputs, 0, numWorkers, fuel - 1);
      case PassThroughOp =>
        HandlePassThroughRefines(g, node.inputs, numWorkers, fuel - 1);
      case FuncOp =>
        HandleFuncRefines(g, node.func, numWorkers, fuel - 1);
      case SourceOp =>
      case UnsupportedOp =>
    }
  }

  lemma {:induction false} HandlePassThroughRefines(g: Graph, inputs: seq<string>, numWorkers: int, fuel: nat)
    decreases fuel, 2, 0
    ensures var r := HandlePassThrough(g, inputs, numWorkers, fuel);
            r.Rewritten? ==> Refines(r.graph, g, numWorkers)
  {
    if |inputs| > 0 && LastIndex(g.nodes, inputs[0]).Some? {
      HandleOpRefines(g, LastIndex(g.nodes, inputs[0]).value, numWorkers, fuel);
    }
  }

  lemma HandleFuncRefines(g: Graph, f: string, numWorkers: int, fuel: nat)
    ensures var r := HandleFunc(g, f, numWorkers, fuel);
            r.Rewritten? ==> Refines(r.graph, g, numWorkers)
  {
    RefinesRefl(g, numWorkers);
  }

  lemma {:induction false} HandleInputsRefines(g: Graph, inputs: seq<string>, i: nat, numWorkers: int, fuel: nat)
    requires i <= |inputs|
    decreases fuel, 2, |inputs| - i
    ensures var r := HandleInputs(g, inputs, i, numWorkers, fuel);
            r.Rewritten? ==> Refines(r.graph, g, numWorkers)
  {
    if i == |inputs| {
      RefinesRefl(g, numWorkers);
    } else if LastIndex(g.nodes, inputs[i]).Some? {
      var j := LastIndex(g.nodes, inputs[i]).value;
      var h := HandleOp(g, j, numWorkers, fuel);
      if h.Rewritten? {
        HandleOpRefines(g, j, numWorkers, fuel);
        HandleInputsRefines(h.graph, inputs, i + 1, numWorkers, fuel);
        var r := HandleInputs(h.graph, inputs, i + 1, numWorkers, fuel);
        if r.Rewritten? {
          RefinesTrans(r.graph, h.graph, g, numWorkers);
        }
      }
    }
  }

  /** A rewrite of a whole graph keeps its shape; it fails with
      InvalidArgument when no sink exists. */
  lemma OptimizeGraphRefines(nodes: seq<Node>, lib: map<string, seq<Node>>, numWorkers: int, fuel: nat)
    ensures var r := OptimizeGraph(nodes, lib, numWorkers, fuel);
            (FirstSinkFrom(nodes, 0).None? ==> r == Rejected(InvalidArgument))
            && (r.Rewritten? ==> Refines(r.graph, Graph(nodes, lib), numWorkers))
  {
    var s := FirstSinkFrom(nodes, 0);
    if s.Some? {
      FirstSinkMeans(nodes, 0);
      HandleOpRefines(Graph(nodes, lib), s.value, numWorkers, fuel);
    }
  }

  /** The rebatching optimizer and its configured number of workers. */
  class RebatchOptimizer {
    var numWorkers: int

    constructor()
      ensures numWorkers == 0
    {
      numWorkers := 0;
    }

    /** Init: without a config nothing changes; otherwise num_workers is
        read from the config's parameter map. */
    method Init(config: Option<map<string, int>>) returns (r: Code)
      requires config.Some? ==> "num_workers" in config.value
      modifies this
      ensures r == Ok
      ensures config.None? ==> numWorkers == old(numWorkers)
      ensures config.Some? ==> numWorkers == config.value["num_workers"]
    {
      if config.None? {
        return Ok;
      }
      numWorkers := config.value["num_workers"];
      return Ok;
    }

    /** OptimizeAndCollectStats: the graph is rewritten with the configured
        number of workers; a rewrite counts as one change. */
    method OptimizeAndCollectStats(nodes: seq<Node>, lib: map<string, seq<Node>>, fuel: nat) returns (r: Outcome, changes: nat)
      ensures r == OptimizeGraph(nodes, lib, numWorkers, fuel)
      ensures changes == (if r.Rewritten? then 1 else 0)
      ensures r.Rewritten? ==> Refines(r.graph, Graph(nodes, lib), numWorkers)
    {
      r := OptimizeGraph(nodes, lib, numWorkers, fuel);
      OptimizeGraphRefines(nodes, lib, numWorkers, fuel);
      changes := if r.Rewritten? then 1 else 0;
    }
  }
}
