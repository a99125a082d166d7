// Tensor tracer: which ops are worth tracing (priority, trace level, op
// range), where trace files go, the device and mode checks, the set of ops
// on the execution path of the fetches, and the tensors within k hops of a
// tensor.
module TensorTracer {
  import opened Common
  import opened PyErrors
  import opened PyStr

  // ---------------------------------------------------------------------
  // Op selection
  // ---------------------------------------------------------------------

  /** The op types op_priority lists for priority k (1..7); an op of
      priority k is traced when trace_level >= k. */
  function PriorityGroup(k: nat): seq<string>
  {
    match k
    case 7 => ["Const", "Shape", "BroadcastGradientArgs", "Range", "VariableShape", "Fill", "OneHot", "ShapeN"]
    case 6 => ["Identity", "Cast", "Reshape", "ExpandDims", "StopGradient", "PreventGradient", "Squeeze"]
    case 5 => ["ConcatV2", "Concat", "StridedSlice", "Slice", "Pack", "Tile", "CollectivePermute", "SplitV"]
    case 4 => ["Pad", "RandomUniformInt", "GreaterEqual"]
    case 3 => ["Sum", "AddV2", "Add", "AddN", "BiasAdd", "CrossReplicaSum"]
    case 2 => ["Neg", "Sub"]
    case 1 => ["Mul", "Square", "MatMul", "RandomUniform", "Select", "Maximum", "Mean", "Variance"]
    case _ => []
  }

  /** op_priority: the groups are tested from 7 down to 1 and the first that
      lists the op gives its priority; an op in no group has priority 0. */
  function OpPriority(opType: string): (r: nat)
    ensures r <= 7
    ensures r == 0 <==> forall k :: 1 <= k <= 7 ==> opType !in PriorityGroup(k)
    ensures r > 0 ==> opType in PriorityGroup(r) && forall k :: r < k <= 7 ==> opType !in PriorityGroup(k)
  {
    if opType in PriorityGroup(7) then 7
    else if opType in PriorityGroup(6) then 6
    else if opType in PriorityGroup(5) then 5
    else if opType in PriorityGroup(4) then 4
    else if opType in PriorityGroup(3) then 3
    else if opType in PriorityGroup(2) then 2
    else if opType in PriorityGroup(1) then 1
    else 0
  }

  /** The tracer parameters the selection reads. */
  datatype TTParameters = TTParameters(
    includeLessInterestingOps: bool,
    traceLevel: int,
    opRange: (int, int),
    traceStackSize: int)

  /** _is_interesting_op. */
  predicate IsInterestingOp(params: TTParameters, opType: string)
  {
    params.includeLessInterestingOps || OpPriority(opType) <= params.traceLevel
  }

  /** Raising the trace level never drops an op, and from level 7 on every
      op is traced; an op in no group is traced from level 0 on. */
  lemma InterestingMonotone(params: TTParameters, opType: string, level: int)
    requires params.traceLevel <= level
    ensures IsInterestingOp(params, opType) ==> IsInterestingOp(params.(traceLevel := level), opType)
    ensures level >= 7 ==> IsInterestingOp(params.(traceLevel := level), opType)
    ensures (forall k :: 1 <= k <= 7 ==> opType !in PriorityGroup(k)) && level >= 0 ==>
              IsInterestingOp(params.(traceLevel := level), opType)
  {
  }

  /** _inside_op_range: at least the lower bound, and at most the upper
      bound unless that is negative (no upper bound). */
  predicate InsideOpRange(params: TTParameters, idx: int)
  {
    if idx < params.opRange.0 then false
    else params.opRange.1 < 0 || idx <= params.opRange.1
  }

  /** The accepted indices form the interval [lo, hi], or [lo, ∞) when hi
      is negative. */
  lemma OpRangeInterval(params: TTParameters, idx: int)
    ensures InsideOpRange(params, idx) <==>
              params.opRange.0 <= idx && (params.opRange.1 >= 0 ==> idx <= params.opRange.1)
  {
  }

  /** reason: the op index in decimal, a space, then the details. */
  function Reason(opIdx: int, details: string): (r: string)
    ensures |r| > |details| && r[|r| - |details|..] == details && r[|r| - |details| - 1] == ' '
  {
    IntToString(opIdx) + " " + details
  }

  /** Different (index, details) pairs give different reasons. */
  lemma ReasonInjective(a: int, d: string, b: int, e: string)
    requires Reason(a, d) == Reason(b, e)
    ensures a == b && d == e
  {
    IntToStringChars(a, ' ');
    IntToStringChars(b, ' ');
    var ra := Reason(a, d);
    assert ra == IntToString(a) + [' '] + d;
    assert Reason(b, e) == IntToString(b) + [' '] + e;
    FirstIndexAfter(IntToString(a), ' ', d);
    FirstIndexAfter(IntToString(b), ' ', e);
    var i := |IntToString(a)|;
    assert ra[..i] == IntToString(a) && ra[i + 1..] == d;
    assert Reason(b, e)[..|IntToString(b)|] == IntToString(b) && Reason(b, e)[|IntToString(b)| + 1..] == e;
    IntToStringInjective(a, b);
  }

  /** _trace_files_need_precreated, with its character-by-character tests in
      the source's order: the files must be pre-created exactly for paths
      under "/cns/". */
  function TraceFilesNeedPrecreated(outputDir: string): (r: bool)
    ensures r <==> StartsWith(outputDir, "/cns/")
  {
    if !(|outputDir| > 0 && outputDir[0] == '/') then false
    else if |outputDir| < 5 then false
    else if outputDir[2] != 'n' then false
    else if outputDir[3] != 's' then false
    else if outputDir[1] != 'c' then false
    else if outputDir[4] != '/' then false
    else
      assert outputDir[..5] == "/cns/";
      true
  }

  // ---------------------------------------------------------------------
  // Device and mode checks
  // ---------------------------------------------------------------------

  const DeviceTypeTpu := "tpu"
  const DeviceTypeCpu := "cpu"

  /** The trace modes; only full_tensor_summary has a device restriction. */
  datatype TraceMode = FullTensorSummary | OtherMode(name: string)

  /** check_device_type. */
  function CheckDeviceType(deviceType: string): (r: PyResult<()>)
    ensures r.Raised? <==> deviceType != DeviceTypeTpu && deviceType != DeviceTypeCpu
    ensures r.Raised? ==> r.exc == ValueError
  {
    if deviceType != DeviceTypeTpu && deviceType != DeviceTypeCpu then Raised(ValueError) else Returned(())
  }

  /** check_trace_mode. */
  function CheckTraceMode(deviceType: string, mode: TraceMode): (r: PyResult<()>)
    ensures r.Raised? <==> mode == FullTensorSummary && deviceType != DeviceTypeTpu
    ensures r.Raised? ==> r.exc == ValueError
  {
    if mode == FullTensorSummary && deviceType != DeviceTypeTpu then Raised(ValueError) else Returned(())
  }

  /** A device passes both checks for full_tensor_summary only when it is a
      TPU; for every other mode both CPU and TPU pass. */
  lemma DeviceModeChecks(deviceType: string, mode: TraceMode)
    ensures mode == FullTensorSummary ==>
              (CheckDeviceType(deviceType).Returned? && CheckTraceMode(deviceType, mode).Returned? <==>
                 deviceType == DeviceTypeTpu)
    ensures mode != FullTensorSummary ==>
              (CheckDeviceType(deviceType).Returned? && CheckTraceMode(deviceType, mode).Returned? <==>
                 deviceType == DeviceTypeTpu || deviceType == DeviceTypeCpu)
  {
  }

  // ---------------------------------------------------------------------
  // Ops on the execution path
  // ---------------------------------------------------------------------

  /** The elements of a sequence, as a set. */
  function Elements(s: seq<nat>): set<nat>
  {
    set x | x in s
  }

  /** The naturals below n. */
  function UpTo(n: nat): (r: set<nat>)
    ensures forall x: nat :: x in r <==> x < n
  {
    if n == 0 then {} else UpTo(n - 1) + {n - 1}
  }

  /** n copies of x. */
  function Repeat<T>(n: nat, x: T): (r: seq<T>)
    ensures |r| == n && forall i :: 0 <= i < n ==> r[i] == x
  {
    if n == 0 then [] else Repeat(n - 1, x) + [x]
  }

  /** An op of the graph: its type, the ops producing its data inputs, and
      its control inputs, all given by index in the graph. */
  datatype Op = Op(opType: string, inputs: seq<nat>, controlInputs: seq<nat>)

  type Graph = seq<Op>

  /** The ops an op depends on, data inputs first. */
  function InputOps(op: Op): seq<nat>
  {
    op.inputs + op.controlInputs
  }

  predicate ValidGraph(g: Graph)
  {
    forall o, j :: 0 <= o < |g| && 0 <= j < |InputOps(g[o])| ==> InputOps(g[o])[j] < |g|
  }

  /** loop_cond_op. */
  predicate IsLoopCondOp(op: Op)
  {
    op.opType == "LoopCond" || op.opType == "RefLoopCond"
  }

  /** A fetch is an op, a tensor (standing for the op producing it), or
      something else, which is refused. */
  datatype Fetch = FetchOp(op: nat) | FetchTensor(op: nat, outputIndex: nat) | FetchOther

  /** Every input of op o is in s, or is a loop condition. */
  predicate InputsCovered(g: Graph, s: set<nat>, o: nat)
    requires ValidGraph(g) && o < |g|
  {
    forall j :: 0 <= j < |InputOps(g[o])| ==> InputOps(g[o])[j] in s || IsLoopCondOp(g[InputOps(g[o])[j]])
  }

  /** s is closed under inputs, loop conditions apart. */
  predicate Closed(g: Graph, s: set<nat>)
    requires ValidGraph(g)
  {
    forall o :: o in s ==> o < |g| && InputsCovered(g, s, o)
  }

  /** order starts with the roots, and every later op in it is a
      non-loop-condition input of the op at its earlier position via[j]. */
  predicate Justified(g: Graph, roots: seq<nat>, order: seq<nat>, via: seq<nat>)
  {
    && |roots| <= |order| == |via| && order[..|roots|] == roots
    && forall j :: |roots| <= j < |order| ==>
         via[j] < j && order[via[j]] < |g| && order[j] < |g| && !IsLoopCondOp(g[order[j]])
         && order[j] in InputOps(g[order[via[j]]])
  }

  /** The ops the fetches name, in order; anything that is neither an op nor
      a tensor raises RuntimeError. */
  method FetchOps(fetches: seq<Fetch>) returns (r: PyResult<seq<nat>>)
    ensures r.Raised? <==> FetchOther in fetches
    ensures r.Raised? ==> r.exc == RuntimeError
    ensures r.Returned? ==> |r.value| == |fetches| && forall i :: 0 <= i < |fetches| ==> r.value[i] == fetches[i].op
  {
    var opFetches: seq<nat> := [];
    var i := 0;
    while i < |fetches|
      invariant 0 <= i <= |fetches|
      invariant FetchOther !in fetches[..i]
      invariant |opFetches| == i && forall j :: 0 <= j < i ==> opFetches[j] == fetches[j].op
    {
      if fetches[i].FetchOther? {
        return Raised(RuntimeError);
      }
      opFetches := opFetches + [fetches[i].op];
      assert fetches[..i + 1] == fetches[..i] + [fetches[i]];
      i := i + 1;
    }
    assert fetches[..i] == fetches;
    return Returned(opFetches);
  }

  /** The inner loop of _filter_execution_path_operations: each input of
      head not yet on the path, and not a loop condition, joins the path and
      the stack; added lists them in order. */
  method VisitInputs(g: Graph, head: nat, path: set<nat>, stack: seq<nat>)
    returns (path': set<nat>, stack': seq<nat>, ghost added: seq<nat>)
    requires ValidGraph(g) && head < |g|
    ensures path' == path + Elements(added) && stack' == stack + added
    ensures forall j :: 0 <= j < |added| ==>
              added[j] !in path && added[j] < |g| && !IsLoopCondOp(g[added[j]]) && added[j] in InputOps(g[head])
    ensures InputsCovered(g, path', head)
  {
    path', stack', added := path, stack, [];
    var inputs := InputOps(g[head]);
    var i := 0;
    while i < |inputs|
      invariant 0 <= i <= |inputs|
      invariant path' == path + Elements(added) && stack' == stack + added
      invariant forall j :: 0 <= j < |added| ==>
                  added[j] !in path && added[j] < |g| && !IsLoopCondOp(g[added[j]]) && added[j] in inputs
      invariant forall j :: 0 <= j < i ==> inputs[j] in path' || IsLoopCondOp(g[inputs[j]])
    {
      var x := inputs[i];
      if x !in path' && !IsLoopCondOp(g[x]) {
        path' := path' + {x};
        stack' := stack' + [x];
        added := added + [x];
        assert Elements(added) == Elements(added[..|added| - 1]) + {x};
      }
      i := i + 1;
    }
  }

  lemma CoveredGrows(g: Graph, s: set<nat>, t: set<nat>, o: nat)
    requires ValidGraph(g) && o < |g| && s <= t && InputsCovered(g, s, o)
    ensures InputsCovered(g, t, o)
  {
  }

  lemma JustifiedExtends(g: Graph, roots: seq<nat>, order: seq<nat>, via: seq<nat>, pos: nat, added: seq<nat>)
    requires Justified(g, roots, order, via) && pos < |order| && order[pos] < |g|
    requires forall j :: 0 <= j < |added| ==>
               added[j] < |g| && !IsLoopCondOp(g[added[j]]) && added[j] in InputOps(g[order[pos]])
    ensures Justified(g, roots, order + added, via + Repeat<nat>(|added|, pos))
  {
    var order', via' := order + added, via + Repeat<nat>(|added|, pos);
    assert order'[..|roots|] == order[..|roots|];
    forall j | |roots| <= j < |order'|
      ensures via'[j] < j && order'[via'[j]] < |g| && order'[j] < |g| && !IsLoopCondOp(g[order'[j]])
              && order'[j] in InputOps(g[order'[via'[j]]])
    {
      if j < |order| {
        assert order'[j] == order[j] && via'[j] == via[j] && order'[via[j]] == order[via[j]];
      } else {
        assert order'[j] == added[j - |order|] && via'[j] == pos && order'[pos] == order[pos];
      }
    }
  }

  /** What the depth-first search keeps true: the path is the ghost order
      as a set, justified from the roots, and every op on the path but no
      longer on the stack has all its inputs on the path (loop conditions
      apart). */
  ghost predicate DfsInv(g: Graph, roots: seq<nat>, order: seq<nat>, via: seq<nat>, path: set<nat>, stack: seq<nat>)
    requires ValidGraph(g)
  {
    && path <= UpTo(|g|) && Elements(order) == path && Justified(g, roots, order, via)
    && Elements(roots) <= path && Elements(stack) <= path
    && forall o :: o in path && o !in stack ==> InputsCovered(g, path, o)
  }

  /** The op popped from the stack has a position in the order. */
  lemma PoppedPosition(g: Graph, roots: seq<nat>, order: seq<nat>, via: seq<nat>, path: set<nat>,
                       stack: seq<nat>) returns (pos: nat)
    requires ValidGraph(g) && DfsInv(g, roots, order, via, path, stack) && stack != []
    ensures pos < |order| && order[pos] == stack[|stack| - 1] && order[pos] < |g|
  {
    assert stack[|stack| - 1] in Elements(stack);
    pos :| 0 <= pos < |order| && order[pos] == stack[|stack| - 1];
  }

  /** Visiting the inputs of the popped op keeps the invariant, and either
      the path grows or it stays and the stack is one shorter. */
  lemma DfsStep(g: Graph, roots: seq<nat>, order: seq<nat>, via: seq<nat>, path0: set<nat>, stack0: seq<nat>,
                pos: nat, path: set<nat>, stack: seq<nat>, added: seq<nat>)
    requires ValidGraph(g) && DfsInv(g, roots, order, via, path0, stack0) && stack0 != []
    requires pos < |order| && order[pos] == stack0[|stack0| - 1] && order[pos] < |g|
    requires path == path0 + Elements(added) && stack == stack0[..|stack0| - 1] + added
    requires forall j :: 0 <= j < |added| ==>
               added[j] !in path0 && added[j] < |g| && !IsLoopCondOp(g[added[j]]) && added[j] in InputOps(g[order[pos]])
    requires InputsCovered(g, path, order[pos])
    ensures DfsInv(g, roots, order + added, via + Repeat<nat>(|added|, pos), path, stack)
    ensures if added == [] then path == path0 else path0 < path
  {
    var head := order[pos];
    var popped := stack0[..|stack0| - 1];
    assert stack0 == popped + [head];
    JustifiedExtends(g, roots, order, via, pos, added);
    assert Elements(order + added) == path;
    forall o | o in path && o !in stack
      ensures InputsCovered(g, path, o)
    {
      if o != head {
        assert o in path0 && o !in stack0;
        CoveredGrows(g, path0, path, o);
      }
    }
    if added != [] {
      assert added[0] in path - path0;
    }
  }

  /** _filter_execution_path_operations. Without fetches every op is kept.
      Otherwise the result holds the fetched ops and is closed under data
      and control inputs, except that loop conditions are never added
      through an input edge; the ghost order lists the result with a reason
      for each op to be there (a fetch, or an input of an op listed
      earlier), so the result lies inside every such closed set
      (ExecutionPathIsLeast). */
  method FilterExecutionPathOperations(g: Graph, fetches: Option<seq<Fetch>>)
    returns (r: PyResult<set<nat>>, ghost roots: seq<nat>, ghost order: seq<nat>, ghost via: seq<nat>)
    requires ValidGraph(g)
    requires fetches.Some? ==> forall f :: f in fetches.value && !f.FetchOther? ==> f.op < |g|
    ensures fetches.None? ==> r == Returned(UpTo(|g|))
    ensures fetches.Some? ==> (r.Raised? <==> FetchOther in fetches.value)
    ensures r.Raised? ==> r.exc == RuntimeError
    ensures r.Returned? && fetches.Some? ==>
              |roots| == |fetches.value| && (forall i :: 0 <= i < |roots| ==> roots[i] == fetches.value[i].op)
              && Elements(roots) <= r.value && Closed(g, r.value)
              && r.value == Elements(order) && Justified(g, roots, order, via)
  {
    roots, order, via := [], [], [];
    if fetches.None? {
      return Returned(UpTo(|g|)), roots, order, via;
    }
    var opFetches := FetchOps(fetches.value);
    if opFetches.Raised? {
      return Raised(RuntimeError), roots, order, via;
    }
    var fetched := opFetches.value;
    assert forall i :: 0 <= i < |fetched| ==> fetches.value[i] in fetches.value;
    roots, order, via := fetched, fetched, fetched;
    var path := Elements(fetched);
    var stack := fetched;
    while stack != []
      invariant DfsInv(g, roots, order, via, path, stack)
      decreases UpTo(|g|) - path, |stack|
    {
      ghost var pos := PoppedPosition(g, roots, order, via, path, stack);
      ghost var path0, stack0 := path, stack;
      var head := stack[|stack| - 1];
      stack := stack[..|stack| - 1];
      ghost var added;
      path, stack, added := VisitInputs(g, head, path, stack);
      DfsStep(g, roots, order, via, path0, stack0, pos, path, stack, added);
      order, via := order + added, via + Repeat<nat>(|added|, pos);
    }
    return Returned(path), roots, order, via;
  }

  /** The ops the search keeps lie inside every set that holds the fetched
      ops and is closed under inputs (loop conditions apart): the result is
      the least such set. */
  lemma ExecutionPathIsLeast(g: Graph, roots: seq<nat>, order: seq<nat>, via: seq<nat>, s: set<nat>)
    requires ValidGraph(g) && Justified(g, roots, order, via)
    requires Elements(roots) <= s && Closed(g, s)
    ensures Elements(order) <= s
  {
    forall x | x in order
      ensures x in s
    {
      var j :| 0 <= j < |order| && order[j] == x;
      JustifiedInClosed(g, roots, order, via, s, j);
    }
  }

  lemma {:induction false} JustifiedInClosed(g: Graph, roots: seq<nat>, order: seq<nat>, via: seq<nat>,
                                             s: set<nat>, j: nat)
    requires ValidGraph(g) && Justified(g, roots, order, via)
    requires Elements(roots) <= s && Closed(g, s)
    requires j < |order|
    ensures order[j] in s
    decreases j
  {
    if j < |roots| {
      assert order[j] == roots[j];
    } else {
      var k := via[j];
      JustifiedInClosed(g, roots, order, via, s, k);
      var m :| 0 <= m < |InputOps(g[order[k]])| && InputOps(g[order[k]])[m] == order[j];
      assert InputsCovered(g, s, order[k]);
    }
  }

  // ---------------------------------------------------------------------
  // Tensors within k hops
  // ---------------------------------------------------------------------

  /** tg[t] lists the input tensors of the op producing tensor t. */
  type TensorGraph = seq<seq<nat>>

  predicate ValidTensorGraph(tg: TensorGraph)
  {
    forall t, j :: 0 <= t < |tg| && 0 <= j < |tg[t]| ==> tg[t][j] < |tg|
  }

  /** Every input of t is visited at a distance at most one more than t's. */
  predicate Expanded(tg: TensorGraph, visited: map<nat, nat>, t: nat)
  {
    t < |tg| && t in visited
    && forall j :: 0 <= j < |tg[t]| ==> tg[t][j] in visited && visited[tg[t][j]] <= visited[t] + 1
  }

  predicate Distinct(s: seq<nat>)
  {
    forall i, j :: 0 <= i < j < |s| ==> s[i] != s[j]
  }

  /** The visited tensors are exactly the queued ones, with no repeats. */
  predicate QueueHoldsVisited(queue: seq<nat>, visited: map<nat, nat>)
  {
    Distinct(queue) && (forall j :: 0 <= j < |queue| ==> queue[j] in visited) && (forall t :: t in visited ==> t in queue)
  }

  /** The distances of the queued tensors, in queue order. */
  function Dist(queue: seq<nat>, visited: map<nat, nat>): (r: seq<int>)
    ensures |r| == |queue| && forall j :: 0 <= j < |queue| && queue[j] in visited ==> r[j] == visited[queue[j]]
  {
    seq(|queue|, j requires 0 <= j < |queue| => if queue[j] in visited then visited[queue[j]] else 0)
  }

  /** Each queued tensor after the first is an input of the tensor at its
      parent position, which comes earlier, and lies one hop further out. */
  predicate ReachedFrom(tg: TensorGraph, queue: seq<nat>, visited: map<nat, nat>, parent: seq<nat>)
  {
    |parent| == |queue|
    && forall j :: 0 < j < |queue| ==>
         parent[j] < j && queue[parent[j]] < |tg| && queue[j] in tg[queue[parent[j]]]
         && Dist(queue, visited)[j] == Dist(queue, visited)[parent[j]] + 1
  }

  /** What the breadth-first search leaves: the queue starts at the tensor,
      has no repeats and holds exactly the visited tensors, each at distance
      at most k and reached from an earlier one; every tensor closer than k
      has had all its inputs visited. */
  predicate DistanceKResult(tg: TensorGraph, tensor: nat, k: nat, queue: seq<nat>, visited: map<nat, nat>,
                            parent: seq<nat>)
  {
    && |queue| >= 1 && queue[0] == tensor && QueueHoldsVisited(queue, visited) && tensor in visited && visited[tensor] == 0
    && (forall j :: 0 <= j < |queue| ==> queue[j] < |tg| && Dist(queue, visited)[j] <= k)
    && ReachedFrom(tg, queue, visited, parent)
    && (forall j :: 0 <= j < |queue| && Dist(queue, visited)[j] < k ==> Expanded(tg, visited, queue[j]))
  }

  /** What one expansion step does: the queue grows at its end by tensors
      not visited before, all at distance d, and old distances stay. */
  predicate Extends(queue0: seq<nat>, visited0: map<nat, nat>, queue: seq<nat>, visited: map<nat, nat>, d: int)
  {
    && |queue0| <= |queue| && queue[..|queue0|] == queue0
    && (forall t :: t in visited0 ==> t in visited && visited[t] == visited0[t])
    && (forall j :: |queue0| <= j < |queue| ==> queue[j] in visited && visited[queue[j]] == d)
    && (|queue| == |queue0| ==> visited.Keys == visited0.Keys)
  }

  /** One step of the search: every input of the tensor at position pos not
      yet visited joins the queue one hop further out. */
  method VisitTensorInputs(tg: TensorGraph, pos: nat, queue: seq<nat>, visited: map<nat, nat>)
    returns (queue': seq<nat>, visited': map<nat, nat>)
    requires ValidTensorGraph(tg) && pos < |queue| && queue[pos] < |tg| && QueueHoldsVisited(queue, visited)
    requires forall t :: t in visited ==> visited[t] <= visited[queue[pos]] + 1
    ensures Extends(queue, visited, queue', visited', visited[queue[pos]] + 1) && QueueHoldsVisited(queue', visited')
    ensures forall j :: |queue| <= j < |queue'| ==> queue'[j] < |tg| && queue'[j] in tg[queue[pos]]
    ensures Expanded(tg, visited', queue[pos])
  {
    visited' := visited;
    var cur := queue[pos];
    var d := visited[cur];
    var inputs := tg[cur];
    var added: seq<nat> := [];
    var i := 0;
    while i < |inputs|
      invariant 0 <= i <= |inputs|
      invariant Distinct(added)
      invariant forall j :: 0 <= j < |added| ==>
                  added[j] !in visited && added[j] < |tg| && added[j] in inputs && added[j] in visited' && visited'[added[j]] == d + 1
      invariant forall t :: t in visited' ==> t in visited || t in added
      invariant forall t :: t in visited ==> t in visited' && visited'[t] == visited[t]
      invariant forall t :: t in visited' ==> visited'[t] <= d + 1
      invariant forall j :: 0 <= j < i ==> inputs[j] in visited'
    {
      var x := inputs[i];
      if x !in visited' {
        added := added + [x];
        visited' := visited'[x := d + 1];
      }
      i := i + 1;
    }
    queue' := queue + added;
    AddedExtends(queue, visited, added, visited', d + 1);
  }

  /** Appending newly visited, distinct tensors at distance d keeps the queue
      and the visited map in step and extends both. */
  lemma AddedExtends(queue: seq<nat>, visited: map<nat, nat>, added: seq<nat>, visited': map<nat, nat>, d: int)
    requires QueueHoldsVisited(queue, visited) && Distinct(added)
    requires forall j :: 0 <= j < |added| ==> added[j] !in visited && added[j] in visited' && visited'[added[j]] == d
    requires forall t :: t in visited' ==> t in visited || t in added
    requires forall t :: t in visited ==> t in visited' && visited'[t] == visited[t]
    ensures Extends(queue, visited, queue + added, visited', d) && QueueHoldsVisited(queue + added, visited')
  {
    var q := queue + added;
    assert q[..|queue|] == queue;
    forall i, j | 0 <= i < j < |q| ensures q[i] != q[j] {
      if j < |queue| {
        assert q[i] == queue[i] && q[j] == queue[j];
      } else if i >= |queue| {
        assert q[i] == added[i - |queue|] && q[j] == added[j - |queue|];
      } else {
        assert q[i] == queue[i] && q[i] in visited;
        assert q[j] == added[j - |queue|];
      }
    }
    forall t | t in visited' ensures t in q {
      if t in visited {
        var k :| 0 <= k < |queue| && queue[k] == t;
        assert q[k] == t;
      } else {
        var k :| 0 <= k < |added| && added[k] == t;
        assert q[|queue| + k] == t;
      }
    }
    if |added| == 0 {
      assert visited'.Keys == visited.Keys;
    }
  }

  lemma ExpandedGrows(tg: TensorGraph, visited: map<nat, nat>, visited': map<nat, nat>, t: nat)
    requires Expanded(tg, visited, t)
    requires forall u :: u in visited ==> u in visited' && visited'[u] == visited[u]
    ensures Expanded(tg, visited', t)
  {
  }

  predicate SortedInts(s: seq<int>)
  {
    forall i, j :: 0 <= i <= j < |s| ==> s[i] <= s[j]
  }

  lemma DistExtends(queue0: seq<nat>, visited0: map<nat, nat>, queue: seq<nat>, visited: map<nat, nat>, d: int)
    requires forall j :: 0 <= j < |queue0| ==> queue0[j] in visited0
    requires Extends(queue0, visited0, queue, visited, d)
    ensures Dist(queue, visited) == Dist(queue0, visited0) + seq(|queue| - |queue0|, _ => d)
  {
    assert forall j :: 0 <= j < |queue0| ==> queue[j] == queue0[j];
  }

  /** Appending distances no smaller than every queued one keeps them
      sorted; the queue's layering (no distance beyond the current one plus
      one) survives appending that plus one. */
  lemma SortedExtends(s: seq<int>, n: nat, d: int, pos: nat, t: seq<int>)
    requires SortedInts(s) && pos < |s| && s[pos] + 1 == d
    requires forall j :: 0 <= j < |s| ==> s[j] <= d
    requires t == s + seq(n, _ => d)
    ensures SortedInts(t)
    ensures forall j :: 0 <= j < |t| ==> t[j] <= t[pos] + 1
  {
  }

  /** The parent positions after a step: the old ones, then pos for each
      tensor the step queued. */
  predicate ParentsExtend(parent0: seq<nat>, parent: seq<nat>, n: nat, pos: nat)
  {
    |parent0| <= |parent| == n
    && (forall j :: 0 <= j < |parent0| ==> parent[j] == parent0[j])
    && (forall j :: |parent0| <= j < n ==> parent[j] == pos)
  }

  lemma ReachedExtends(tg: TensorGraph, queue0: seq<nat>, visited0: map<nat, nat>, parent0: seq<nat>,
                       queue: seq<nat>, visited: map<nat, nat>, parent: seq<nat>, pos: nat)
    requires forall j :: 0 <= j < |queue0| ==> queue0[j] < |tg| && queue0[j] in visited0
    requires ReachedFrom(tg, queue0, visited0, parent0)
    requires pos < |queue0| && Extends(queue0, visited0, queue, visited, visited0[queue0[pos]] + 1)
    requires forall j :: |queue0| <= j < |queue| ==> queue[j] < |tg| && queue[j] in tg[queue0[pos]]
    requires ParentsExtend(parent0, parent, |queue|, pos)
    ensures ReachedFrom(tg, queue, visited, parent)
  {
    DistExtends(queue0, visited0, queue, visited, visited0[queue0[pos]] + 1);
    assert forall j :: 0 <= j < |queue0| ==> queue[j] == queue0[j];
  }

  /** How the queue and the map relate while the search runs. */
  predicate BfsShape(tg: TensorGraph, tensor: nat, k: nat, queue: seq<nat>, visited: map<nat, nat>)
  {
    && |queue| >= 1 && queue[0] == tensor && QueueHoldsVisited(queue, visited)
    && tensor in visited && visited[tensor] == 0 && visited.Keys <= UpTo(|tg|)
    && (forall j :: 0 <= j < |queue| ==> queue[j] < |tg| && Dist(queue, visited)[j] <= k)
  }

  /** The breadth-first order after head tensors have been dequeued:
      distances never decrease along the queue and none exceeds the last
      dequeued one plus one; each dequeued tensor closer than k is expanded. */
  predicate BfsOrder(tg: TensorGraph, k: nat, queue: seq<nat>, visited: map<nat, nat>, parent: seq<nat>, head: nat)
  {
    && head <= |queue| && SortedInts(Dist(queue, visited))
    && (head == 0 ==> |queue| == 1)
    && (head > 0 ==> forall j :: 0 <= j < |queue| ==> Dist(queue, visited)[j] <= Dist(queue, visited)[head - 1] + 1)
    && (forall j :: 0 <= j < head && Dist(queue, visited)[j] < k ==> Expanded(tg, visited, queue[j]))
    && ReachedFrom(tg, queue, visited, parent)
  }

  /** Before the tensor at position head is expanded, no visited tensor is
      more than one hop further out than it. */
  lemma BfsLayer(tg: TensorGraph, tensor: nat, k: nat, queue: seq<nat>, visited: map<nat, nat>,
                 parent: seq<nat>, head: nat)
    requires BfsShape(tg, tensor, k, queue, visited) && BfsOrder(tg, k, queue, visited, parent, head)
    requires head < |queue|
    ensures forall t :: t in visited ==> visited[t] <= visited[queue[head]] + 1
  {
    forall t | t in visited
      ensures visited[t] <= visited[queue[head]] + 1
    {
      var j :| 0 <= j < |queue| && queue[j] == t;
      assert Dist(queue, visited)[j] == visited[t];
      assert Dist(queue, visited)[head] == visited[queue[head]];
    }
  }

  lemma BfsStepShape(tg: TensorGraph, tensor: nat, k: nat, queue0: seq<nat>, visited0: map<nat, nat>,
                     head: nat, queue: seq<nat>, visited: map<nat, nat>)
    requires BfsShape(tg, tensor, k, queue0, visited0)
    requires head < |queue0| && visited0[queue0[head]] < k
    requires Extends(queue0, visited0, queue, visited, visited0[queue0[head]] + 1) && QueueHoldsVisited(queue, visited)
    requires forall j :: |queue0| <= j < |queue| ==> queue[j] < |tg|
    ensures BfsShape(tg, tensor, k, queue, visited)
    ensures if |queue| == |queue0| then visited.Keys == visited0.Keys else visited0.Keys < visited.Keys
  {
    DistExtends(queue0, visited0, queue, visited, visited0[queue0[head]] + 1);
    assert forall j :: 0 <= j < |queue0| ==> queue[j] == queue0[j];
    forall t | t in visited
      ensures t in UpTo(|tg|)
    {
      var j :| 0 <= j < |queue| && queue[j] == t;
    }
    if |queue| > |queue0| {
      assert queue[|queue0|] in visited.Keys - visited0.Keys;
    }
  }

  lemma BfsStepOrder(tg: TensorGraph, tensor: nat, k: nat, queue0: seq<nat>, visited0: map<nat, nat>,
                     parent0: seq<nat>, head: nat, queue: seq<nat>, visited: map<nat, nat>, parent: seq<nat>)
    requires BfsShape(tg, tensor, k, queue0, visited0) && BfsOrder(tg, k, queue0, visited0, parent0, head)
    requires head < |queue0| && visited0[queue0[head]] < k
    requires Extends(queue0, visited0, queue, visited, visited0[queue0[head]] + 1)
    requires forall j :: |queue0| <= j < |queue| ==> queue[j] < |tg| && queue[j] in tg[queue0[head]]
    requires Expanded(tg, visited, queue0[head])
    requires ParentsExtend(parent0, parent, |queue|, head)
    ensures BfsOrder(tg, k, queue, visited, parent, head + 1)
  {
    var d := visited0[queue0[head]] + 1;
    DistExtends(queue0, visited0, queue, visited, d);
    var s := Dist(queue0, visited0);
    assert s[head] + 1 == d;
    forall j | 0 <= j < |s| ensures s[j] <= d {
      if head > 0 {
        assert s[head - 1] <= s[head];
      } else {
        assert j == head;
      }
    }
    SortedExtends(Dist(queue0, visited0), |queue| - |queue0|, d, head, Dist(queue, visited));
    ReachedExtends(tg, queue0, visited0, parent0, queue, visited, parent, head);
    ExpandedExtends(tg, k, queue0, visited0, head, queue, visited);
  }

  lemma ExpandedExtends(tg: TensorGraph, k: nat, queue0: seq<nat>, visited0: map<nat, nat>,
                        head: nat, queue: seq<nat>, visited: map<nat, nat>)
    requires head < |queue0| && forall j :: 0 <= j < |queue0| ==> queue0[j] in visited0
    requires forall j :: 0 <= j < head && Dist(queue0, visited0)[j] < k ==> Expanded(tg, visited0, queue0[j])
    requires Extends(queue0, visited0, queue, visited, visited0[queue0[head]] + 1)
    requires Expanded(tg, visited, queue0[head])
    ensures forall j :: 0 <= j < head + 1 && Dist(queue, visited)[j] < k ==> Expanded(tg, visited, queue[j])
  {
    forall j | 0 <= j < head + 1 && Dist(queue, visited)[j] < k
      ensures Expanded(tg, visited, queue[j])
    {
      assert queue[j] == queue0[j];
      if j < head {
        ExpandedGrows(tg, visited0, visited, queue0[j]);
      }
    }
  }

  /** When the queue runs out, or the tensor dequeued next is k hops out,
      the queue is the answer. */
  lemma BfsDone(tg: TensorGraph, tensor: nat, k: nat, queue: seq<nat>, visited: map<nat, nat>,
                parent: seq<nat>, head: nat)
    requires BfsShape(tg, tensor, k, queue, visited) && BfsOrder(tg, k, queue, visited, parent, head)
    requires head == |queue| || visited[queue[head]] == k
    ensures DistanceKResult(tg, tensor, k, queue, visited, parent)
  {
    if head < |queue| {
      forall j | head <= j < |queue|
        ensures Dist(queue, visited)[j] >= k
      {
        assert Dist(queue, visited)[head] <= Dist(queue, visited)[j];
      }
    }
  }

  /** One turn of the search loop: the tensor at position head, closer
      than k, has its unvisited inputs queued one hop further out. */
  method ExpandHead(tg: TensorGraph, tensor: nat, k: nat, queue: seq<nat>, visited: map<nat, nat>,
                    ghost parent: seq<nat>, head: nat)
    returns (queue': seq<nat>, visited': map<nat, nat>, ghost parent': seq<nat>)
    requires ValidTensorGraph(tg)
    requires BfsShape(tg, tensor, k, queue, visited) && BfsOrder(tg, k, queue, visited, parent, head)
    requires head < |queue| && visited[queue[head]] < k
    ensures BfsShape(tg, tensor, k, queue', visited') && BfsOrder(tg, k, queue', visited', parent', head + 1)
    ensures if |queue'| == |queue| then visited'.Keys == visited.Keys else visited.Keys < visited'.Keys
  {
    BfsLayer(tg, tensor, k, queue, visited, parent, head);
    queue', visited' := VisitTensorInputs(tg, head, queue, visited);
    BfsStepShape(tg, tensor, k, queue, visited, head, queue', visited');
    parent' := parent + Repeat(|queue'| - |queue|, head);
    BfsStepOrder(tg, tensor, k, queue, visited, parent, head, queue', visited', parent');
  }

  /** _get_distance_k_tensors: a breadth-first search over input edges from
      the tensor, stopping when a tensor at distance k is dequeued; the
      queue is the result. A negative k gives the empty list. */
  method GetDistanceKTensors(tg: TensorGraph, tensor: nat, kBefore: int)
    returns (queue: seq<nat>, ghost visitedOut: map<nat, nat>, ghost parent: seq<nat>)
    requires ValidTensorGraph(tg) && tensor < |tg|
    ensures kBefore < 0 ==> queue == []
    ensures kBefore >= 0 ==> DistanceKResult(tg, tensor, kBefore, queue, visitedOut, parent)
  {
    if kBefore < 0 {
      return [], map[], [];
    }
    var visited: map<nat, nat> := map[tensor := 0];
    queue := [tensor];
    parent := [0];
    var head := 0;
    while head < |queue|
      invariant BfsShape(tg, tensor, kBefore, queue, visited) && BfsOrder(tg, kBefore, queue, visited, parent, head)
      decreases UpTo(|tg|) - visited.Keys, |queue| - head
    {
      var current := queue[head];
      var distance := visited[current];
      if distance == kBefore {
        BfsDone(tg, tensor, kBefore, queue, visited, parent, head);
        return queue, visited, parent;
      }
      queue, visited, parent := ExpandHead(tg, tensor, kBefore, queue, visited, parent, head);
      head := head + 1;
    }
    BfsDone(tg, tensor, kBefore, queue, visited, parent, head);
    visitedOut := visited;
  }

  /** A path along input edges. */
  predicate IsPath(tg: TensorGraph, p: seq<nat>)
  {
    forall i :: 0 <= i < |p| - 1 ==> p[i] < |tg| && p[i + 1] in tg[p[i]]
  }

  /** Every queued tensor is reached from the tensor by a path whose length
      is its recorded distance, so it is at most k hops away. */
  lemma {:induction false} QueuedHasPath(tg: TensorGraph, tensor: nat, k: nat, queue: seq<nat>,
                                         visited: map<nat, nat>, parent: seq<nat>, j: nat) returns (p: seq<nat>)
    requires DistanceKResult(tg, tensor, k, queue, visited, parent) && j < |queue|
    ensures IsPath(tg, p) && |p| == Dist(queue, visited)[j] + 1 && p[0] == tensor && p[|p| - 1] == queue[j]
    ensures |p| <= k + 1
    decreases j
  {
    if j == 0 {
      p := [tensor];
    } else {
      var q := QueuedHasPath(tg, tensor, k, queue, visited, parent, parent[j]);
      p := q + [queue[j]];
      assert p[|p| - 2] == queue[parent[j]];
    }
  }

  /** Conversely every tensor reachable in at most k hops is queued, at a
      distance no greater than the hops taken. */
  lemma {:induction false} WithinKHopsQueued(tg: TensorGraph, tensor: nat, k: nat, queue: seq<nat>,
                                             visited: map<nat, nat>, parent: seq<nat>, p: seq<nat>)
    requires DistanceKResult(tg, tensor, k, queue, visited, parent)
    requires |p| >= 1 && p[0] == tensor && IsPath(tg, p) && |p| - 1 <= k
    ensures p[|p| - 1] in visited && p[|p| - 1] in queue && visited[p[|p| - 1]] <= |p| - 1
  {
    if |p| > 1 {
      var q := p[..|p| - 1];
      WithinKHopsQueued(tg, tensor, k, queue, visited, parent, q);
      var prev := q[|q| - 1];
      var j :| 0 <= j < |queue| && queue[j] == prev;
      assert Dist(queue, visited)[j] < k;
      assert Expanded(tg, visited, prev);
      var m :| 0 <= m < |tg[prev]| && tg[prev][m] == p[|p| - 1];
    } else {
      assert queue[0] == tensor;
    }
  }
}
