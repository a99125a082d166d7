# Verified model of sequential logic in TensorFlow and MLIR

This project models, in Dafny, the deterministic bookkeeping, index
arithmetic, parsers and validation tables found throughout a TensorFlow
source tree (with its vendored MLIR). Each core source file has one module,
named after the file. `Common.dfy` holds the shared vocabulary: `Option`,
the canonical status codes, a value-or-status `Result`, and sums and
products of integer lists.

Tensors, IR objects, RPC channels and devices become abstract datatypes or
parameters. What the code computes from them is modelled exactly: counters,
maps, index lists, strings and status codes. Imperative code is modelled as
classes and methods with loops and invariants. Each method is proved against
a specification function, and lemmas state the properties of those
functions. Pure code is modelled as functions and lemmas.

Integers are unbounded throughout. Where the source's fixed width matters,
the model says so.

## Model

| member | source | states |
|---|---|---|
| DispatcherState.DispatcherState.Apply | tensorflow/core/data/service/dispatcher_state.cc:28-56 | an update with no type yields INTERNAL and changes nothing; every other update yields OK and its handler's whole effect (Applied) |
| DispatcherState.DispatcherState.RegisterDatasetUpdate | tensorflow/core/data/service/dispatcher_state.cc:58-68 | the dataset is stored by id and by fingerprint, and the next dataset id becomes at least id+1 |
| DispatcherState.DispatcherState.RegisterWorkerUpdate | tensorflow/core/data/service/dispatcher_state.cc:70-76 | the worker is stored with an empty task list |
| DispatcherState.DispatcherState.CreateJobUpdate | tensorflow/core/data/service/dispatcher_state.cc:78-96 | the job is stored unfinished with no clients and an empty task list, a named job is indexed by its key, and the next job id becomes at least id+1 |
| DispatcherState.DispatcherState.AcquireJobClientUpdate | tensorflow/core/data/service/dispatcher_state.cc:98-108 | the client maps to the job, the job's client count goes up by one, and the next client id becomes at least id+1 |
| DispatcherState.DispatcherState.ReleaseJobClientUpdate | tensorflow/core/data/service/dispatcher_state.cc:110-119 | the client mapping is removed, the job's client count goes down by one, and the release time is recorded |
| DispatcherState.DispatcherState.CreateTaskUpdate | tensorflow/core/data/service/dispatcher_state.cc:121-131 | the task is stored and appended to its job's and its worker's task lists, and the next task id becomes at least id+1 |
| DispatcherState.DispatcherState.FinishTaskUpdate | tensorflow/core/data/service/dispatcher_state.cc:133-147 | the task is marked finished, and the job is finished iff every task of the job is finished |
| DispatcherState.DispatcherState.NextAvailableDatasetId | tensorflow/core/data/service/dispatcher_state.cc:149-151 | returns the counter and changes nothing, so two queries agree |
| DispatcherState.DispatcherState.NextAvailableJobId | tensorflow/core/data/service/dispatcher_state.cc:224-226 | returns the counter and changes nothing |
| DispatcherState.DispatcherState.NextAvailableJobClientId | tensorflow/core/data/service/dispatcher_state.cc:237-239 | returns the counter and changes nothing |
| DispatcherState.DispatcherState.NextAvailableTaskId | tensorflow/core/data/service/dispatcher_state.cc:280-282 | returns the counter and changes nothing |
| DispatcherState.DispatcherState.DatasetFromId | tensorflow/core/data/service/dispatcher_state.cc:153-161 | NOT_FOUND iff the id is unknown, otherwise the stored dataset |
| DispatcherState.DispatcherState.DatasetFromFingerprint | tensorflow/core/data/service/dispatcher_state.cc:163-171 | NOT_FOUND iff the fingerprint is unknown, otherwise the stored dataset |
| DispatcherState.DispatcherState.WorkerFromAddress | tensorflow/core/data/service/dispatcher_state.cc:173-181 | NOT_FOUND iff the address is unknown, otherwise the stored worker |
| DispatcherState.DispatcherState.ListWorkers | tensorflow/core/data/service/dispatcher_state.cc:183-191 | one entry per worker, holding exactly the stored workers |
| DispatcherState.DispatcherState.ListJobs | tensorflow/core/data/service/dispatcher_state.cc:193-201 | one entry per job, holding exactly the stored jobs |
| DispatcherState.DispatcherState.JobFromId | tensorflow/core/data/service/dispatcher_state.cc:203-211 | NOT_FOUND iff the id is unknown, otherwise the stored job |
| DispatcherState.DispatcherState.NamedJobByKey | tensorflow/core/data/service/dispatcher_state.cc:213-222 | NOT_FOUND iff no job has that name and index, otherwise that job |
| DispatcherState.DispatcherState.JobForJobClientId | tensorflow/core/data/service/dispatcher_state.cc:228-235 | NOT_FOUND iff the client id is unknown, otherwise its job |
| DispatcherState.DispatcherState.TaskFromId | tensorflow/core/data/service/dispatcher_state.cc:241-249 | NOT_FOUND iff the id is unknown, otherwise the stored task |
| DispatcherState.DispatcherState.TasksForJob | tensorflow/core/data/service/dispatcher_state.cc:251-263 | NOT_FOUND iff the job is unknown, otherwise the job's tasks in creation order |
| DispatcherState.DispatcherState.TasksForWorker | tensorflow/core/data/service/dispatcher_state.cc:265-278 | NOT_FOUND iff the worker is unknown; otherwise the caller's tasks, unchanged, followed by the worker's tasks in creation order |
| DispatcherState.AcquireThenRelease | tensorflow/core/data/service/dispatcher_state.cc:98-119 | acquiring and then releasing a client restores the job's client count, and a later lookup of the client is NOT_FOUND |
| EventSpan.FromEndPoints | tensorflow/core/profiler/utils/event_span.cc:125-128 | the span begins at the first point and ends at the second |
| EventSpan.CmpIsRankOrder | tensorflow/core/profiler/utils/event_span.cc:43-57 | the boundary comparison is exactly the order of a single integer rank |
| EventSpan.RankOrdersTime | tensorflow/core/profiler/utils/event_span.cc:43-57 | a boundary that sorts no later than another is at no later time |
| EventSpan.CmpEventBoundariesRules | tensorflow/core/profiler/utils/event_span.cc:43-57 | earlier time first; at equal time ends before starts; at equal time and kind the higher type first; the order is irreflexive, asymmetric and transitive, and incomparable boundaries are equal |
| EventSpan.InsertProps | tensorflow/core/profiler/utils/event_span.cc:70 | inserting into a sorted list keeps it sorted and adds exactly one element |
| EventSpan.SortProps | tensorflow/core/profiler/utils/event_span.cc:70 | the sort is sorted and a permutation of its input |
| EventSpan.GenerateEventBoundaries | tensorflow/core/profiler/utils/event_span.cc:60-71 | two boundaries per event, a start at its begin and an end at its end, returned sorted and as a permutation of those boundaries |
| EventSpan.HighestBelow | tensorflow/core/profiler/utils/event_span.cc:98-112 | the highest type below the bound with a positive open count, or UNKNOWN_TIME when there is none |
| EventSpan.HighestUnique | tensorflow/core/profiler/utils/event_span.cc:98-112 | any value meeting that description is the one found |
| EventSpan.AsWrittenCorrectWhenNested | tensorflow/core/profiler/utils/event_span.cc:88-114 | while open counts stay non-negative, the update as written gives the highest open type |
| EventSpan.ZeroLengthEventLeavesStalePriority | tensorflow/core/profiler/utils/event_span.cc:88-114 | a zero-length event leaves the update as written reporting a type that is not open (see Findings) |
| EventSpan.PriorityTracker.Update | tensorflow/core/profiler/utils/event_span.cc:88-114 | the boundary adjusts its type's open count, and the result is the highest type with a positive count, or UNKNOWN_TIME |
| EventSpan.ToNonOverlappedEvents | tensorflow/core/profiler/utils/event_span.cc:117-131 | for non-empty input, one span per adjacent pair of sorted boundaries, typed by the priority after the first boundary; consecutive spans tile the boundary times with no gaps |
| EventSpan.ClassifyGpuEvent | tensorflow/core/profiler/utils/event_span.cc:140-148 | case-insensitive prefix tests on MEMCPYHtoD, MEMCPYDtoH and MEMCPYDtoD, in that order, and DEVICE_COMPUTE otherwise |
| EventSpan.ClassifyCpuEvent | tensorflow/core/profiler/utils/event_span.cc:150-162 | HtoD or Infeed first, then HtoH, then a non-negative correlation id or ExecutorState::Process, then IteratorGetNext, else HOST_COMPUTE |
| EventSpan.ClassifyGpuIgnoresCase | tensorflow/core/profiler/utils/event_span.cc:142 | "memcpyHtoD" is classified as a host-to-device copy |
| EventSpan.ClassifyCpuInfeed | tensorflow/core/profiler/utils/event_span.cc:151-152 | a name containing "Infeed" is classified as host-to-device |
| EventSpan.Combined | tensorflow/core/profiler/utils/event_span.cc:223-230 | the combined steps are those of either input |
| EventSpan.CombineStepEvents | tensorflow/core/profiler/utils/event_span.cc:133-136 | each src step's markers and events are appended after dst's for that step; steps only in dst are untouched |
| EventSpan.StepTime | tensorflow/core/profiler/utils/event_span.cc:267-277 | the first marker span of maximal positive duration, or the default span when there is none |
| EventSpan.ToNonOverlappedStepEvents | tensorflow/core/profiler/utils/event_span.cc:233-253 | exactly the input steps are kept; each keeps its markers, and its events become the split of ToNonOverlappedEvents: one span per adjacent pair of its sorted boundaries, typed by the highest open type, consecutive spans meeting end to begin |
| XplaneToStepEvents.IsRealCpuCompute | tensorflow/core/profiler/convert/xplane_to_step_events.cc:37-44 | step markers, and names starting with EagerExecute, EagerLocalExecute, EagerKernelExecute or FunctionRun, are not real compute |
| XplaneToStepEvents.StepMarkerExamples | tensorflow/core/profiler/convert/xplane_to_step_events.cc:28-33 | a step marker starts with train, test or TraceContext and contains no '/' |
| XplaneToStepEvents.HostItem | tensorflow/core/profiler/convert/xplane_to_step_events.cc:52-79 | a host event is kept iff its group id is non-negative and, when device steps are used, present among them; a kept event is a marker iff its name is a step marker, and otherwise an event |
| XplaneToStepEvents.AddItem | tensorflow/core/profiler/convert/xplane_to_step_events.cc:71-78 | adding an item touches only its step |
| XplaneToStepEvents.HostLineSteps | tensorflow/core/profiler/convert/xplane_to_step_events.cc:48-81 | every resulting step id is non-negative and, when device steps are used, is a device step |
| XplaneToStepEvents.ConvertHostThreadsXLineToStepEvents | tensorflow/core/profiler/convert/xplane_to_step_events.cc:48-81 | folds the kept events of the line into steps |
| XplaneToStepEvents.DeviceItem | tensorflow/core/profiler/convert/xplane_to_step_events.cc:98-119 | a device event is recorded iff both its correlation id and its group id are non-negative, with its own span |
| XplaneToStepEvents.DeviceLineSteps | tensorflow/core/profiler/convert/xplane_to_step_events.cc:96-120 | every resulting step id is non-negative and device lines produce no markers |
| XplaneToStepEvents.ConvertDeviceTraceXLineToStepEvents | tensorflow/core/profiler/convert/xplane_to_step_events.cc:96-120 | folds the recorded events of the line into steps |
| XplaneToStepEvents.HostPlaneSteps | tensorflow/core/profiler/convert/xplane_to_step_events.cc:83-94 | the step ids of a host plane keep the line guarantees |
| XplaneToStepEvents.ConvertHostThreadsXPlaneToStepEvents | tensorflow/core/profiler/convert/xplane_to_step_events.cc:83-94 | combines the step events of every line |
| XplaneToStepEvents.DerivedLinesIgnored | tensorflow/core/profiler/convert/xplane_to_step_events.cc:125-128 | a derived line contributes nothing to the device plane's steps |
| XplaneToStepEvents.ConvertDeviceTraceXPlaneToStepEvents | tensorflow/core/profiler/convert/xplane_to_step_events.cc:122-130 | combines the step events of every non-derived line |
| VectorToVector.StridesProperties | third_party/mlir/lib/Dialect/VectorOps/VectorToVector.cpp:53-69 | the last stride is 1 and each stride is the next one times the next size |
| VectorToVector.StridesExample | third_party/mlir/lib/Dialect/VectorOps/VectorToVector.cpp:56 | shape [3, 4, 5] has strides [20, 5, 1] |
| VectorToVector.ComputeStrides | third_party/mlir/lib/Dialect/VectorOps/VectorToVector.cpp:57-69 | the result is the row-major strides of the shape |
| VectorToVector.ComputeMaxLinearIndex | third_party/mlir/lib/Dialect/VectorOps/VectorToVector.cpp:71-78 | the product of the list, and 0 for the empty list |
| VectorToVector.Linearize | third_party/mlir/lib/Dialect/VectorOps/VectorToVector.cpp:80-87 | for lists of equal length, the sum of offsets[i] * basis[i] |
| VectorToVector.Delinearize | third_party/mlir/lib/Dialect/VectorOps/VectorToVector.cpp:89-103 | successive truncating quotients by the basis, with the final remainder |
| VectorToVector.DotBounds | third_party/mlir/lib/Dialect/VectorOps/VectorToVector.cpp:80-87 | in-bounds offsets linearise to an index in [0, product of the shape) |
| VectorToVector.DelinearizeLinearize | third_party/mlir/lib/Dialect/VectorOps/VectorToVector.cpp:89-103 | every index below the product of the shape delinearises against its strides with zero remainder to in-bounds offsets that linearise back to it |
| VectorToVector.LinearizeDelinearize | third_party/mlir/lib/Dialect/VectorOps/VectorToVector.cpp:80-103 | in-bounds offsets come back unchanged from linearising and then delinearising |
| VectorToVector.MappedContents | third_party/mlir/lib/Dialect/VectorOps/VectorToVector.cpp:139-151 | with an injective index map, result[indexMap[i]] is input[i] for each mapped i, and unmapped positions keep their old value |
| VectorToVector.GetMappedElements | third_party/mlir/lib/Dialect/VectorOps/VectorToVector.cpp:139-151 | the array afterwards is the scatter of the mapped inputs over its old contents |
| VectorToVector.ElementOffsets | third_party/mlir/lib/Dialect/VectorOps/VectorToVector.cpp:321-326 | element offsets are the componentwise product of vector offsets and target shape |
| VectorToVector.UnrolledInstanceOffsets | third_party/mlir/lib/Dialect/VectorOps/VectorToVector.cpp:280-326 | one entry per unrolled instance, holding the element offsets of the delinearised instance index |
| VectorToVector.UnrolledSliceInBounds | third_party/mlir/lib/Dialect/VectorOps/VectorToVector.cpp:317-326 | every unrolled slice lies inside the iteration bounds |
| VectorToVector.UnrolledSlicesDistinct | third_party/mlir/lib/Dialect/VectorOps/VectorToVector.cpp:317-326 | distinct unrolled instances address distinct slices |
| AffineExpr.ReplaceDimsAndSymbols | lib/IR/AffineExpr.cpp:56-87 | constants stay; a dim or symbol within the replacement list becomes its replacement and one beyond it stays; a binary node whose operands do not change is returned as is |
| AffineExpr.ReplaceNothing | lib/IR/AffineExpr.cpp:56-87 | substitution with empty replacement lists is the identity |
| AffineExpr.ComposeSymbolic | lib/IR/AffineExpr.cpp:288-292 | composing an expression with no dims with any map leaves it unchanged |
| AffineExpr.ComposeIdentity | lib/IR/AffineExpr.cpp:288-292 | composing with the identity map over enough dims leaves an expression unchanged |
| AffineExpr.ReplacePreservesPureAffine | lib/IR/AffineExpr.cpp:114-141 | substituting pure affine expressions into a pure affine expression gives a pure affine expression |
| AffineExpr.SymbolicOrConstantIffNoDims | lib/IR/AffineExpr.cpp:91-110 | isSymbolicOrConstant is false iff some dim occurs in the expression |
| AffineExpr.FunctionOfDimIffOccurs | lib/IR/AffineExpr.cpp:204-213 | isFunctionOfDim(p) holds iff dim p occurs in the expression |
| AffineExpr.LargestKnownDivisorSound | lib/IR/AffineExpr.cpp:144-169 | the (corrected) largest known divisor divides every value the expression takes: 1 for dims and symbols, abs of a constant, product for a product, gcd for add and mod |
| AffineExpr.QuotientDivisorAsWrittenIsUnsound | lib/IR/AffineExpr.cpp:144-202 | the divisor as written for (2 * d0) floordiv 4 is 2, the multiple-of test as written accepts factor 2, and the value at d0 = 2 is 1 (see Findings) |
| AffineExpr.IsMultipleOfSound | lib/IR/AffineExpr.cpp:171-202 | for a positive factor the (corrected) test accepts only expressions all of whose values are multiples of the factor; a dim or symbol is a multiple of 1 only and a constant c of f when c % f is 0 |
| AffineExpr.SimplifyAffineExpr | lib/IR/AffineExpr.cpp:548-553 | an expression that is not pure affine is returned unchanged |
| Attributes.RemapFunctionAttrs | lib/IR/Attributes.cpp:80-107 | an attribute that neither is nor contains a function attribute is returned unchanged |
| Attributes.SubstitutedWithoutFunctions | lib/IR/Attributes.cpp:80-107 | substitution leaves an attribute without function references unchanged |
| Attributes.RemapIsSubstitution | lib/IR/Attributes.cpp:80-107 | remapping, with its early exits for unchanged attributes, equals the plain recursive substitution of mapped function symbols |
| Attributes.RemapEmptyTable | lib/IR/Attributes.cpp:80-107 | remapping with an empty table is the identity |
| Attributes.SubstitutedEmptyTable | lib/IR/Attributes.cpp:80-107 | substitution with an empty table is the identity |
| Attributes.HugeIndexPassesCheck | lib/IR/Attributes.cpp:441-446 | a uint64 index of 2^63 into a four-element attribute passes the bounds check as written although it is out of bounds (see Findings) |
| Attributes.GetValue | lib/IR/Attributes.cpp:435-461 | null exactly when the index has the wrong rank or some component is at least its dimension, so every index of a shape with a zero dimension is null; otherwise the element at the row-major linear index, which lies inside the elements |
| Attributes.ZeroExtentIsEmpty | lib/IR/Attributes.cpp:435-461 | a shape with a zero dimension holds no elements and admits no index |
| Attributes.LinearIndex | lib/IR/Attributes.cpp:448-454 | the innermost-first accumulation equals the dot product of the index with the row-major strides |
| Attributes.FirstIndex | lib/IR/Attributes.cpp:767-778 | the position of the first entry with the name, or -1 exactly when no entry has it |
| Attributes.LookupNullIffAbsent | lib/IR/Attributes.cpp:753-778 | on a list without null entries, lookup gives null exactly when the name is absent |
| Attributes.SetProperties | lib/IR/Attributes.cpp:782-798 | set adds at most one entry, the name then looks up to the new value, and every other name keeps its lookup |
| Attributes.RemoveProperties | lib/IR/Attributes.cpp:802-820 | remove reports Removed exactly when the name is present, then shortens the list by one; NotFound leaves it alone; other names keep their lookup; with unique names the removed name looks up to null |
| Attributes.SetThenRemove | lib/IR/Attributes.cpp:782-820 | setting an absent name and removing it again restores the list and reports Removed |
| Attributes.NamedAttributeList.constructor | lib/IR/Attributes.cpp:743-745 | the list holds the given attributes, with no storage exactly when they are empty |
| Attributes.NamedAttributeList.SetAttrs | lib/IR/Attributes.cpp:753-764 | the list afterwards is the given one, with no storage exactly when it is empty |
| Attributes.NamedAttributeList.Get | lib/IR/Attributes.cpp:773-778 | the value of the first entry with the name, or null |
| Attributes.NamedAttributeList.Set | lib/IR/Attributes.cpp:782-798 | the new list replaces the first entry with the name, or appends one when there is none |
| Attributes.NamedAttributeList.Remove | lib/IR/Attributes.cpp:802-820 | the new list drops the first entry with the name and reports Removed, or is unchanged and reports NotFound; removing the only entry leaves no storage |
| OperationSupport.NextPowerOf2 | lib/IR/OperationSupport.cpp:122-124 | LLVM's NextPowerOf2 gives a power of two strictly above its argument and at most twice it plus one |
| OperationSupport.NextPowerOf2Least | lib/IR/OperationSupport.cpp:122-124 | no power of two above the argument is smaller than NextPowerOf2 |
| OperationSupport.GrownCapacity | lib/IR/OperationSupport.cpp:122-124 | the grown capacity is at least the requested size and above the old capacity plus two |
| OperationSupport.Erased | lib/IR/OperationSupport.cpp:108-117 | the list without one operand: one shorter, earlier operands in place and later ones moved down by one |
| OperationSupport.ErasedReinsert | lib/IR/OperationSupport.cpp:108-117 | putting the erased operand back at its index restores the operand list |
| OperationSupport.ErasedAsWritten | lib/IR/OperationSupport.cpp:108-117 | the operands eraseOperand leaves as written: when the erased operand is not the last one it ends up in the last kept position (see Findings) |
| OperationSupport.EraseFirstOfTwoAsWritten | lib/IR/OperationSupport.cpp:108-117 | erasing the first of two operands as written keeps it and drops the second |
| OperationSupport.EraseLastAgrees | lib/IR/OperationSupport.cpp:108-117 | erasing the last operand is right as written |
| OperationSupport.RotateLeft | lib/IR/OperationSupport.cpp:115-116 | std::rotate by one position: the first element of the range goes to its end, the rest move down, nothing outside the range changes |
| OperationSupport.OperandStorage.constructor | lib/IR/OperationSupport.cpp:71-105 | storage holding exactly the given operands, with that many slots |
| OperationSupport.OperandStorage.SetOperands | lib/IR/OperationSupport.cpp:71-105 | the operands afterwards are the given ones in order; growing beyond the current count needs resizable storage; the buffer is kept when the capacity suffices and grown to the grow capacity otherwise |
| OperationSupport.OperandStorage.Grow | lib/IR/OperationSupport.cpp:119-137 | a fresh buffer of capacity max(NextPowerOf2(capacity + 2), minSize) holding the same operands in the same order |
| OperationSupport.OperandStorage.EraseOperand | lib/IR/OperationSupport.cpp:107-117 | for an index below the size, the operands afterwards are the old ones without that index, in order, in the same buffer |
| OperationSupport.OperandStorage.EraseOperandAsWritten | lib/IR/OperationSupport.cpp:107-117 | the operands afterwards are those of ErasedAsWritten |
| OperationSupport.OperationState.constructor | lib/IR/OperationSupport.cpp:40-54 | the state copies the name, operands, types, attributes, successors and regions it is given |
| OperationSupport.OperationState.AddRegion | lib/IR/OperationSupport.cpp:57-60 | exactly one new empty region is appended at the end and its position returned; nothing else changes |
| OperationSupport.OperationState.AddGivenRegion | lib/IR/OperationSupport.cpp:62-64 | exactly the given region is appended at the end; nothing else changes |
| LoopUtils.GetUnrolledLoopUpperBound | lib/Transforms/Utils/LoopUtils.cpp:42-62 | Null exactly when the lower bound map does not have one result or the trip count is not affine |
| LoopUtils.GetCleanupLoopLowerBound | lib/Transforms/Utils/LoopUtils.cpp:68-87 | Null exactly when the lower bound map does not have one result or the trip count is not affine |
| LoopUtils.UnrolledBoundsValues | lib/Transforms/Utils/LoopUtils.cpp:42-87 | for lower bound lb and trip count tc the upper bound evaluates to lb + (tc - tc mod uf - 1) * step and the cleanup lower bound to lb + (tc - tc mod uf) * step |
| LoopUtils.CleanupFollowsUnrolled | lib/Transforms/Utils/LoopUtils.cpp:57-58 | the cleanup lower bound is the unrolled upper bound plus one step |
| LoopUtils.UnrolledIterationSplit | lib/Transforms/Utils/LoopUtils.cpp:57-58 | for a non-negative trip count the unrolled part runs a multiple of the unroll factor of iterations and the cleanup part fewer than the factor |
| LoopUtils.ZeroUnrollFactorUndefined | lib/Transforms/Utils/LoopUtils.cpp:57-58 | with an unroll factor of 0 neither bound has a value, the modulo being by zero |
| LoopUtils.PromoteIfSingleIteration | lib/Transforms/Utils/LoopUtils.cpp:92-125 | promotion happens exactly when the constant trip count is 1 and the lower bound map has one result; otherwise the block is unchanged; a promoted loop is replaced by its body |
| LoopUtils.OpsAppend | lib/Transforms/Utils/LoopUtils.cpp:117-121 | the operations of two concatenated statement lists are those of the first followed by those of the second |
| LoopUtils.PromotePreservesOps | lib/Transforms/Utils/LoopUtils.cpp:117-121 | splicing the body into the block keeps every operation in program order |
| LoopUtils.MaxDelay | lib/Transforms/Utils/LoopUtils.cpp:223-226 | the maximum delay bounds every delay and is one of them |
| LoopUtils.GroupsPartitionBody | lib/Transforms/Utils/LoopUtils.cpp:236-241 | together the delay groups hold as many statements as the body |
| LoopUtils.GroupMembers | lib/Transforms/Utils/LoopUtils.cpp:236-241 | a group holds only statements of its own delay |
| LoopUtils.GroupByDelay | lib/Transforms/Utils/LoopUtils.cpp:236-241 | the group of each delay is the statements with that delay in body order |
| LoopUtils.GroupContains | lib/Transforms/Utils/LoopUtils.cpp:236-241 | every statement is in the group of its delay |
| LoopUtils.WellFormedChunksMeaning | lib/Transforms/Utils/LoopUtils.cpp:254-305 | the chunk-by-chunk shape is: every generated loop runs a non-empty queue of non-empty groups and starts where the previous one ended |
| LoopUtils.ChunkDelaysMeaning | lib/Transforms/Utils/LoopUtils.cpp:254-305 | a delay is among the chunk delays exactly when some generated loop runs its group |
| LoopUtils.FirstUnpromoted | lib/Transforms/Utils/LoopUtils.cpp:292-304 | the prologue is the first generated loop that is not promoted away, or none when all are |
| LoopUtils.SweepGroups | lib/Transforms/Utils/LoopUtils.cpp:254-305 | the generated loops are contiguous, the first starts at the smallest non-empty delay, the last runs only the largest delay and ends at it plus the trip count, every non-empty group is run, and prologue and epilogue are the first and last loops that are not promoted away |
| LoopUtils.SweepStep | lib/Transforms/Utils/LoopUtils.cpp:259-294 | one step of the sweep keeps the sweep state |
| LoopUtils.SweepStarts | lib/Transforms/Utils/LoopUtils.cpp:254-294 | after the main sweep every non-empty group is queued or run and the queue ends with the largest delay |
| LoopUtils.SweepPending | lib/Transforms/Utils/LoopUtils.cpp:296-305 | each queued group left gets one loop, from its start to its delay plus the trip count, running it and the groups queued after it |
| LoopUtils.UnrollTargetsAsWritten | lib/Transforms/Utils/LoopUtils.cpp:310-313 | the loops the code as written unrolls: the prologue, and the epilogue only when it is null (see Findings) |
| LoopUtils.NullEpilogueUnrolledAsWritten | lib/Transforms/Utils/LoopUtils.cpp:310-313 | a null epilogue is passed to loopUnrollFull and a real one is never unrolled |
| LoopUtils.UnrollTargets | lib/Transforms/Utils/LoopUtils.cpp:310-313 | with unrolling asked for, the prologue and the epilogue, when they exist, are unrolled once each; nothing else is |
| LoopUtils.StmtBodySkew | lib/Transforms/Utils/LoopUtils.cpp:201-316 | no change exactly for an empty body, a non-constant trip count or a largest delay of at least the number of statements; otherwise the groups are the statements by delay in body order, the sweep's loops cover every non-empty group and end at the largest delay plus the trip count, and the unrolled loops are the prologue and a distinct epilogue |
| Pytree.CustomNodeRegistry.constructor | tensorflow/compiler/xla/python/pytree.cc:39-42 | the registry starts with no registered type |
| Pytree.CustomNodeRegistry.Register | tensorflow/compiler/xla/python/pytree.cc:45-59 | a type not yet registered is added; registering a type twice raises and leaves the registry unchanged |
| Pytree.SortedKeys | tensorflow/compiler/xla/python/pytree.cc:129-133 | the keys list is every key of the dict exactly once, in ascending order |
| Pytree.GetKind | tensorflow/compiler/xla/python/pytree.cc:90-107 | an object is a custom node exactly when it is an instance of a registered class, and a leaf exactly when it is not a container, None, a namedtuple or a registered instance |
| Pytree.FlattenIntoAppends | tensorflow/compiler/xla/python/pytree.cc:109-166 | flattening appends to the traversal and leaf lists without looking at what they already hold |
| Pytree.FlattenPostOrder | tensorflow/compiler/xla/python/pytree.cc:109-166 | the traversal is the children's traversals in order followed by the node itself, whose counts are the leaves and nodes of its subtree; the leaves are the object itself for a leaf and the children's leaves in order otherwise |
| Pytree.LeafCountOfFlatten | tensorflow/compiler/xla/python/pytree.cc:112-113 | the number of leaf nodes in a flattened tree's traversal equals the number of leaves |
| Pytree.FlattenCounted | tensorflow/compiler/xla/python/pytree.cc:163-165 | every node's num_nodes and num_leaves are the node and leaf counts of the block of the traversal its subtree occupies |
| Pytree.DictVisitedInKeyOrder | tensorflow/compiler/xla/python/pytree.cc:128-139 | a dict node's data is the dict's keys sorted ascending, each once, and its children are the values in that key order |
| Pytree.BuildDictMaps | tensorflow/compiler/xla/python/pytree.cc:263-271 | with distinct keys the rebuilt dict maps each key to its value and holds no other key |
| Pytree.RebuildDict | tensorflow/compiler/xla/python/pytree.cc:263-271 | the dict rebuilt from its sorted keys and values in that order is the original dict |
| Pytree.MakeNode | tensorflow/compiler/xla/python/pytree.cc:232-283 | a child count that differs from the arity raises, and a leaf node raises; a result is only built for a non-leaf node over arity children |
| Pytree.MakeNodeInverse | tensorflow/compiler/xla/python/pytree.cc:232-283 | the node recorded for a container rebuilds a container over any fitting children, and the container itself over its own children |
| Pytree.Unflatten | tensorflow/compiler/xla/python/pytree.cc:184-230 | the agenda loop gives the result of the node-by-node specification: too few agenda entries, too few leaves, leaves left over and a non-singleton agenda raise |
| Pytree.RunAppend | tensorflow/compiler/xla/python/pytree.cc:184-230 | running a concatenated traversal runs its first part and then its second from where the first stopped |
| Pytree.RunNodes | tensorflow/compiler/xla/python/pytree.cc:184-230 | over a flattened tree the loop raises TooFewLeaves when there are fewer leaves than the tree has, and otherwise takes exactly that many and pushes one object, the tree itself when given its own leaves |
| Pytree.RunChildren | tensorflow/compiler/xla/python/pytree.cc:184-230 | the same over the children of a node from the i-th on, pushing one object per child |
| Pytree.ConsumesThen | tensorflow/compiler/xla/python/pytree.cc:184-230 | two runs that each take a known number of leaves compose into one run that takes their sum |
| Pytree.UnflattenFlatten | tensorflow/compiler/xla/python/pytree.cc:109-230 | unflattening a flattened tree raises on too few and on too many leaves, accepts exactly num_leaves, and rebuilds the tree from its own leaves |
| Pytree.TreeDefEq | tensorflow/compiler/xla/python/pytree.cc:69-88 | two definitions are equal exactly when they agree node by node on everything but the counts |
| Pytree.EqualTreeDefsUnflattenAlike | tensorflow/compiler/xla/python/pytree.cc:69-88 | equal definitions unflatten every leaf list to the same result, so the counts need no comparison |
| Pytree.Children | tensorflow/compiler/xla/python/pytree.cc:543-566 | the loop gives the specification's result: an empty definition has no children, walking off the start or not ending at position 0 raises |
| Pytree.PeelConcat | tensorflow/compiler/xla/python/pytree.cc:543-566 | definitions whose roots count their own nodes are recovered from their concatenation |
| Pytree.ChildrenOfFlatten | tensorflow/compiler/xla/python/pytree.cc:543-566 | children() of a flattened tree is the list of its children's flattened definitions |
| Pytree.Tuple | tensorflow/compiler/xla/python/pytree.cc:530-541 | the result is the definitions' traversals in order followed by one tuple node of arity len(defs) |
| Pytree.TupleOfFlattened | tensorflow/compiler/xla/python/pytree.cc:530-541 | the tuple of a tuple's flattened children equals that tuple's own definition and unflattens to the tuple |
| Pytree.TupleChildren | tensorflow/compiler/xla/python/pytree.cc:530-566 | children() of a tuple of well-counted definitions gives back the definitions |
| Pytree.SubstituteLeaves | tensorflow/compiler/xla/python/pytree.cc:513-519 | the copy loop replaces every leaf node of the outer traversal by the inner traversal |
| Pytree.SubstitutedLast | tensorflow/compiler/xla/python/pytree.cc:520-523 | the last node of the substitution is the inner root when the outer root is a leaf and the outer root otherwise |
| Pytree.SubstitutedCounts | tensorflow/compiler/xla/python/pytree.cc:524-526 | the substitution has the outer non-leaf nodes plus one inner copy per outer leaf, and outer leaves times inner leaves leaf nodes |
| Pytree.ComposeAsWritten | tensorflow/compiler/xla/python/pytree.cc:511-528 | the composition as written, whose root leaf count multiplies the last node's own count by the inner root's (see Findings) |
| Pytree.ComposeLeafWithPairAsWritten | tensorflow/compiler/xla/python/pytree.cc:524-526 | composing a single leaf with a pair of leaves, the code as written records four leaves where the composition has two |
| Pytree.Compose | tensorflow/compiler/xla/python/pytree.cc:511-528 | the composition with the root leaf count the product of the outer and inner root counts |
| Pytree.ComposeRootCounts | tensorflow/compiler/xla/python/pytree.cc:511-528 | when both roots carry their trees' counts, so does the root of the composition |
| MklUtil.CalculateTFStrides | tensorflow/core/util/mkl_util.h:1269-1286 | for non-empty dims the loop from the innermost dimension outwards gives the row-major strides: each stride is the product of the later dimensions |
| MklUtil.TFStridesExample | tensorflow/core/util/mkl_util.h:1269-1273 | the documented example: {1, 2, 3, 4} has strides {24, 12, 4, 1} |
| MklUtil.GetStridesFromSizes | tensorflow/core/util/mkl_util.h:890-904 | the four strides written are those of a dense tensor in the given format (NHWC, every other format as NCHW), only they are written |
| MklUtil.DenseLayoutStridesExplicit | tensorflow/core/util/mkl_util.h:890-904 | the dense strides are C, W*C, 1, W*H*C for NHWC and 1, W, W*H, W*H*C otherwise |
| MklUtil.DenseLayoutInBounds | tensorflow/core/util/mkl_util.h:890-904 | with those strides every in-bounds index lands at its row-major offset in the format's dimension order, inside a buffer of W*H*C*N elements |
| MklUtil.IsConv1x1StrideNot1 | tensorflow/core/util/mkl_util.h:2448-2454 | true exactly for a 4-d filter whose last two dimensions are 1 with two strides not both 1 |
| MklUtil.FactoryKeyCreator.constructor | tensorflow/core/util/mkl_util.h:2229 | a new key is empty |
| MklUtil.FactoryKeyCreator.Append | tensorflow/core/util/mkl_util.h:2253-2256 | the piece is appended to the key and then the delimiter 'x' |
| MklUtil.FactoryKeyCreator.AddAsKeyString | tensorflow/core/util/mkl_util.h:2233 | a string is appended as one piece |
| MklUtil.FactoryKeyCreator.AddAsKeyValue | tensorflow/core/util/mkl_util.h:2241-2245 | a scalar is appended as one piece of its bytes, least significant first |
| MklUtil.FactoryKeyCreator.AddAsKeyDims | tensorflow/core/util/mkl_util.h:2235-2239 | each dimension is appended as its own 4-byte piece, in order |
| MklUtil.FactoryKeyCreator.GetKey | tensorflow/core/util/mkl_util.h:2247 | the key built so far |
| MklUtil.PiecesDelimited | tensorflow/core/util/mkl_util.h:2253-2256 | every piece sits in the key at its own start and is followed by the delimiter |
| MklUtil.LittleEndianRoundTrip | tensorflow/core/util/mkl_util.h:2241-2245 | the bytes of a scalar read back give the value modulo 256 to the width |
| MklUtil.DimsKeyDecodes | tensorflow/core/util/mkl_util.h:2235-2245 | the key of a list of dimensions reads back to each dimension modulo 2^32 |
| MklUtil.DimsKeyInjective | tensorflow/core/util/mkl_util.h:2235-2245 | two lists of 32-bit dimensions with the same key are equal |
| MklUtil.LRUCache.constructor | tensorflow/core/util/mkl_util.h:2099-2102 | a new cache of the given capacity is empty |
| MklUtil.LRUCache.GetOp | tensorflow/core/util/mkl_util.h:2104-2115 | a missing key gives null and changes nothing; a present key gives its primitive, its node moves to the front, the list keeps its length, and with each key listed once the recency order becomes the key followed by the others in their old order |
| MklUtil.LRUCache.SetOp | tensorflow/core/util/mkl_util.h:2117-2126 | at or over capacity the back node is evicted first; the key is then put at the front and the primitive stored unless the key still has an entry; a new key keeps each key listed once, and setting a key that keeps its entry leaves the old primitive and lists the key twice |
| MklUtil.LRUCache.Delete | tensorflow/core/util/mkl_util.h:2163-2171 | an empty list gives false and changes nothing; otherwise the back node is dropped and its key's entry erased, and true is returned |
| MklUtil.LRUCache.Clear | tensorflow/core/util/mkl_util.h:2128-2134 | both the map and the list end up empty; an empty list leaves the map alone |
| MklUtil.RemoveIdMembers | tensorflow/core/util/mkl_util.h:2110-2111 | erasing a list node keeps exactly the other nodes |
| MklUtil.RemoveIdKeys | tensorflow/core/util/mkl_util.h:2110-2111 | with each key listed once, erasing the node of a key removes that key from the recency order and nothing else |
| MklUtil.TouchKeeps | tensorflow/core/util/mkl_util.h:2104-2115 | moving a key to the front keeps the list-map invariant and the list length |
| MklUtil.EvictKeeps | tensorflow/core/util/mkl_util.h:2163-2171 | dropping the back node keeps the list-map invariant |
| MklUtil.InsertKeeps | tensorflow/core/util/mkl_util.h:2117-2126 | inserting at the front of a list with room keeps the list-map invariant |
| MklUtil.CacheWithinCapacity | tensorflow/core/util/mkl_util.h:2092-2094 | the cache holds no more entries than the list has nodes, and the list no more than the capacity (or one, for capacity 0) |
| MklUtil.ExactSameKeys | tensorflow/core/util/mkl_util.h:2087-2090 | when the list and map agree, the map's keys are the list's keys, each once, one entry per node |
| BufferAssignment.NewAllocation | tensorflow/compiler/xla/service/buffer_assignment.h:74-75 | a new allocation has the given index, size and color and no flag set, so it is reusable, a preallocated temporary, not read-only and neither input nor output |
| BufferAssignment.ParameterNumber | tensorflow/compiler/xla/service/buffer_assignment.h:127-130 | the parameter number is only available, and is the recorded one, for an entry-computation parameter |
| BufferAssignment.ParamShapeIndex | tensorflow/compiler/xla/service/buffer_assignment.h:134-137 | the same for the parameter's shape index |
| BufferAssignment.PreallocatedTempIsInternal | tensorflow/compiler/xla/service/buffer_assignment.h:218-234 | a preallocated temporary buffer is neither input nor output and is not read-only |
| BufferAssignment.NotPreallocatedTemp | tensorflow/compiler/xla/service/buffer_assignment.h:218-234 | an allocation is not a preallocated temporary exactly when it is an input or output, thread-local or a constant |
| BufferAssignment.ReadonlyNonConstantIsInput | tensorflow/compiler/xla/service/buffer_assignment.h:101-107 | a read-only allocation that is not a constant is an entry parameter not aliased with an output |
| BufferAssignment.SetIsThreadLocal | tensorflow/compiler/xla/service/buffer_assignment.h:85-87 | only the thread-local flag changes; a thread-local allocation is neither reusable nor a preallocated temporary |
| BufferAssignment.SetIsTuple | tensorflow/compiler/xla/service/buffer_assignment.h:110 | only the tuple flag changes; a tuple allocation is not reusable |
| BufferAssignment.SetEntryComputationParameter | tensorflow/compiler/xla/service/buffer_assignment.h:283-290 | the allocation becomes a parameter with the given number and shape index: an input, not a preallocated temporary, read-only exactly when not aliased with an output or a constant |
| BufferAssignment.SetConstant | tensorflow/compiler/xla/service/buffer_assignment.h:292 | only the constant flag changes; a constant is read-only and not a preallocated temporary |
| BufferAssignment.SetMaybeLiveOut | tensorflow/compiler/xla/service/buffer_assignment.h:293 | only the live-out flag changes; a live-out allocation is an output and not a preallocated temporary |
| BufferAssignment.SetIndex | tensorflow/compiler/xla/service/buffer_assignment.h:294 | only the index changes, and no predicate |
| BufferAssignment.SetSize | tensorflow/compiler/xla/service/buffer_assignment.h:295 | only the size changes; the allocation stays equal to itself and no predicate changes |
| BufferAssignment.AllocationOrder | tensorflow/compiler/xla/service/buffer_assignment.h:265-273 | allocation order is a strict weak order whose equivalence is equality, and both depend on the index only |
| BufferAssignment.SliceOf | tensorflow/compiler/xla/service/buffer_assignment.h:168-172 | a slice carries its allocation's index, its offset and its size |
| BufferAssignment.SliceEqIsIdentity | tensorflow/compiler/xla/service/buffer_assignment.h:176-179 | slice equality holds exactly for the same index, offset and size |
| BufferAssignment.SliceOrder | tensorflow/compiler/xla/service/buffer_assignment.h:181-185 | the lexicographic slice order is irreflexive, transitive and asymmetric, and two slices are equal exactly when neither is less |
| BufferAssignment.OverlapsIffSharedByte | tensorflow/compiler/xla/service/buffer_assignment.h:187-194 | for slices of at least one byte, OverlapsWith holds exactly when some byte of the same allocation lies in both |
| BufferAssignment.OverlapsSymmetric | tensorflow/compiler/xla/service/buffer_assignment.h:189-194 | overlap is symmetric |
| BufferAssignment.NoOverlapAcrossAllocations | tensorflow/compiler/xla/service/buffer_assignment.h:192 | slices of different allocations never overlap |
| BufferAssignment.EmptySliceOverlapsAsWritten | tensorflow/compiler/xla/service/buffer_assignment.h:187-194 | as written, the empty slice at offset 5 overlaps the slice [0, 10) of the same allocation although no byte lies in both |
| BufferAssignment.RangesIntersectIffSharedByte | tensorflow/compiler/xla/service/buffer_assignment.h:187-194 | the documented overlap holds for every pair of slices exactly when some byte lies in both |
| BufferAssignment.RangesIntersectProperties | tensorflow/compiler/xla/service/buffer_assignment.h:187-194 | the documented overlap is symmetric, never holds across allocations, and agrees with the test as written on non-empty slices |
| UnionFind.CompatibleMeaning | tensorflow/compiler/tf2tensorrt/segment/union_find.cc:29-39 | two optional values are incompatible exactly when both are present and differ; compatibility is symmetric and a value is compatible with itself and with nothing |
| UnionFind.MergeCompatible | tensorflow/compiler/tf2tensorrt/segment/union_find.cc:51-56 | of two compatible values the result is the second, which is the first when both are present |
| UnionFind.MergedBatchSize | tensorflow/compiler/tf2tensorrt/segment/union_find.cc:85-96 | merging refuses exactly on clashing static sizes; otherwise the dynamic flag is the disjunction and the other's static size wins when it has one |
| UnionFind.MergeCommutes | tensorflow/compiler/tf2tensorrt/segment/union_find.cc:85-96 | the merge of two batch sizes does not depend on their order |
| UnionFind.MergeIdempotent | tensorflow/compiler/tf2tensorrt/segment/union_find.cc:85-96 | merging a batch size with itself gives it back |
| UnionFind.MergeUnit | tensorflow/compiler/tf2tensorrt/segment/union_find.cc:60-61 | the batch size of a new cluster is a unit for merging |
| UnionFind.MergeAssociative | tensorflow/compiler/tf2tensorrt/segment/union_find.cc:85-96 | merging three batch sizes gives the same result or the same refusal whichever two are merged first |
| UnionFind.BatchSizeStringInjective | tensorflow/compiler/tf2tensorrt/segment/union_find.cc:98-107 | the text of a batch size (flags as 1/0, then the static size) determines it |
| UnionFind.ClusterBatchSize.constructor | tensorflow/compiler/tf2tensorrt/segment/union_find.cc:60-61 | a new batch size has no dynamic flag and no static size |
| UnionFind.ClusterBatchSize.Equals | tensorflow/compiler/tf2tensorrt/segment/union_find.cc:63-66 | equality compares both the dynamic flag and the static size |
| UnionFind.ClusterBatchSize.GetStaticBatchSize | tensorflow/compiler/tf2tensorrt/segment/union_find.cc:68-71 | the static size, which must be present |
| UnionFind.ClusterBatchSize.SetBatchSize | tensorflow/compiler/tf2tensorrt/segment/union_find.cc:73-83 | a negative size only sets the dynamic flag; any other becomes the static size and nothing else changes |
| UnionFind.ClusterBatchSize.MergeIfCompatible | tensorflow/compiler/tf2tensorrt/segment/union_find.cc:85-96 | returns false and changes nothing on a static-size clash, and otherwise becomes the merged batch size and returns true |
| UnionFind.ClusterProperty.constructor | tensorflow/compiler/tf2tensorrt/segment/union_find.cc:109-111 | the cluster starts with the given batch size and device |
| UnionFind.ClusterProperty.Merge | tensorflow/compiler/tf2tensorrt/segment/union_find.cc:113-130 | both merges are computed on copies; when both succeed they are committed and OK is returned, otherwise an Internal error is returned and nothing changes |
| ResourceAliasAnalysis.Next | tensorflow/compiler/mlir/tensorflow/analysis/resource_alias_analysis.cc:155-165 | a graph result forwards its fetch operand, an island result its yield operand (not the control output), an Identity result its operand; the forwarded value is earlier in the IR |
| ResourceAliasAnalysis.Backtrack | tensorflow/compiler/mlir/tensorflow/analysis/resource_alias_analysis.cc:154-171 | backtracking ends at a value of the IR that forwards nothing |
| ResourceAliasAnalysis.BacktrackValue | tensorflow/compiler/mlir/tensorflow/analysis/resource_alias_analysis.cc:154-171 | the while loop returns the value where backtracking ends |
| ResourceAliasAnalysis.BacktrackIsFirstStop | tensorflow/compiler/mlir/tensorflow/analysis/resource_alias_analysis.cc:154-171 | the returned value is reached by single steps, each from a value that forwards, and is the first one that forwards nothing |
| ResourceAliasAnalysis.BacktrackIdempotent | tensorflow/compiler/mlir/tensorflow/analysis/resource_alias_analysis.cc:154-171 | backtracking the result again returns it |
| ResourceAliasAnalysis.BacktrackFixed | tensorflow/compiler/mlir/tensorflow/analysis/resource_alias_analysis.cc:154-171 | a value backtracks to itself exactly when it forwards nothing |
| ResourceAliasAnalysis.AnalyzeRegion | tensorflow/compiler/mlir/tensorflow/analysis/resource_alias_analysis.cc:176-188 | an empty region gets nothing; otherwise each terminator operand is backtracked, in order |
| ResourceAliasAnalysis.GetArg | tensorflow/compiler/mlir/tensorflow/analysis/resource_alias_analysis.cc:72-76 | a result is a pass-through exactly when it backtracks to an argument of the region's own block, and the argument's number is returned |
| ResourceAliasAnalysis.BacktrackAnalysis.constructor | tensorflow/compiler/mlir/tensorflow/analysis/resource_alias_analysis.cc:145-149 | every region of the module has an analysis |
| ResourceAliasAnalysis.BacktrackAnalysis.GetOrCreateAnalysis | tensorflow/compiler/mlir/tensorflow/analysis/resource_alias_analysis.cc:123-138 | a region seen before keeps its analysis; a new one is analysed and added, the others unchanged |
| ResourceAliasAnalysis.GetVarHandleStringId | tensorflow/compiler/mlir/tensorflow/analysis/resource_alias_analysis.cc:203-208 | the id starts with container/shared_name/, then the device or nothing |
| ResourceAliasAnalysis.StringIdDetermines | tensorflow/compiler/mlir/tensorflow/analysis/resource_alias_analysis.cc:203-208 | without slashes in container and shared name, equal string ids mean equal container, shared name and device text |
| ResourceAliasAnalysis.StringIdAmbiguous | tensorflow/compiler/mlir/tensorflow/analysis/resource_alias_analysis.cc:203-208 | a slash in a container lets two different variables share a string id |
| ResourceAliasAnalysis.GetOrCreateIdForVarHandle | tensorflow/compiler/mlir/tensorflow/analysis/resource_alias_analysis.cc:210-222 | an anonymous handle takes the counter and advances it; a known name reuses its id; a new name takes the counter, advances it and is recorded; ids stay below the counter |
| ResourceAliasAnalysis.HandleIdsShareByName | tensorflow/compiler/mlir/tensorflow/analysis/resource_alias_analysis.cc:210-222 | over a run of handles from an empty name map, two get one id exactly when both are named with the same string id |
| ResourceAliasAnalysis.AnonymousIsFresh | tensorflow/compiler/mlir/tensorflow/analysis/resource_alias_analysis.cc:213-216 | an anonymous handle's id is held by no name and the counter advances by one |
| ResourceAliasAnalysis.AddMapping | tensorflow/compiler/mlir/tensorflow/analysis/resource_alias_analysis.cc:259-261 | the pair is recorded in both maps: the value gains the id and the id gains the value, every other value and id keeps what it had |
| ResourceAliasAnalysis.AddMappingKeeps | tensorflow/compiler/mlir/tensorflow/analysis/resource_alias_analysis.cc:259-261 | recording a pair keeps every pair already recorded and keeps the two maps each other's inverse |
| ResourceAliasAnalysis.Forward | tensorflow/compiler/mlir/tensorflow/analysis/resource_alias_analysis.cc:265-276 | the corrected forwarding: the result gains the operand's ids, every other value keeps its ids, and exactly the operand's ids gain the result |
| ResourceAliasAnalysis.ForwardKeeps | tensorflow/compiler/mlir/tensorflow/analysis/resource_alias_analysis.cc:265-276 | forwarding keeps every pair already recorded and keeps the two maps each other's inverse |
| ResourceAliasAnalysis.ForwardAsWritten | tensorflow/compiler/mlir/tensorflow/analysis/resource_alias_analysis.cc:265-276 | the result takes the operand's ids in the value map only |
| ResourceAliasAnalysis.ForwardAsWrittenMissesAlias | tensorflow/compiler/mlir/tensorflow/analysis/resource_alias_analysis.cc:265-276 | after a var handle and an Identity, the Identity's result shares the id but is not among the handle's aliases |
| ResourceAliasAnalysis.ForwardedIsAlias | tensorflow/compiler/mlir/tensorflow/analysis/resource_alias_analysis.cc:265-276 | with the corrected forwarding, the result is an alias of its operand |
| ResourceAliasAnalysis.IsUnknownIff | tensorflow/compiler/mlir/tensorflow/analysis/resource_alias_analysis.cc:351-359 | the corrected IsUnknownResource (the smallest id is the unknown one) holds exactly when the unknown id is among the resource's ids |
| ResourceAliasAnalysis.AsWrittenUnknownIff | tensorflow/compiler/mlir/tensorflow/analysis/resource_alias_analysis.cc:351-359 | as written (*begin() of a SmallSet of eight inline ids), a resource is found unknown exactly when it holds the unknown id and either that id was inserted first or the set holds more than eight ids |
| ResourceAliasAnalysis.LateUnknownMissedAsWritten | tensorflow/compiler/mlir/tensorflow/analysis/resource_alias_analysis.cc:317-359 | an If result given id 3 by its then-input and then the unknown id by its else-input is not unknown as written, but is unknown by the corrected check |
| ResourceAliasAnalysis.GetResourceAliases | tensorflow/compiler/mlir/tensorflow/analysis/resource_alias_analysis.cc:375-385 | the aliases are the values of the resource's ids |
| ResourceAliasAnalysis.AliasesShareId | tensorflow/compiler/mlir/tensorflow/analysis/resource_alias_analysis.cc:375-385 | with inverse maps, the aliases are the values sharing an id with the resource; aliasing is symmetric and reflexive |
| ResourceAliasAnalysis.ResourceCountIncreases | tensorflow/compiler/mlir/tensorflow/analysis/resource_alias_analysis.cc:260-262 | a resource argument's position count is below that of every later resource argument |
| ResourceAliasAnalysis.ArgIdsDistinct | tensorflow/compiler/mlir/tensorflow/analysis/resource_alias_analysis.cc:260-262 | without attributes, two resource arguments never share an id |
| ResourceAliasAnalysis.ResourceAliasAnalysisInfo.AddValueUniqueIdMapping | tensorflow/compiler/mlir/tensorflow/analysis/resource_alias_analysis.cc:259-261 | the state becomes AddMapping of the old state, which keeps every recorded pair and keeps the maps inverse |
| ResourceAliasAnalysis.ResourceAliasAnalysisInfo.ForwardInputToOutput | tensorflow/compiler/mlir/tensorflow/analysis/resource_alias_analysis.cc:265-276 | a non-resource result is skipped; for a resource result it succeeds exactly when the operand was seen; on failure nothing changes; on success the state is Forward of the old state, which keeps every pair and keeps the maps inverse |
| ResourceAliasAnalysis.ResourceAliasAnalysisInfo.AddArgumentIds | tensorflow/compiler/mlir/tensorflow/analysis/resource_alias_analysis.cc:240-263 | fails exactly when attributes are present but a resource argument lacks one; the counter ends at the number of resource arguments; each resource argument has one id; with attributes, ids are equal exactly when attributes are; without, each id is the argument's position among resources |
| ResourceAliasAnalysis.ResourceAliasAnalysisInfo.AddResourceArgument | tensorflow/compiler/mlir/tensorflow/analysis/resource_alias_analysis.cc:249-262 | one resource argument keeps the loop's facts, or fails on a missing attribute |
| ResourceAliasAnalysis.ResourceAliasAnalysisInfo.MarkUnknown | tensorflow/compiler/mlir/tensorflow/analysis/resource_alias_analysis.cc:340-346 | the new state is the old one after marking each resource result, in order, with the unknown id (ActAll of MarkActions, whose effect ActAllEffect states); so every resource result holds the unknown id, the maps stay inverse and no id exceeds the bound |
| ResourceAliasAnalysis.ResourceAliasAnalysisInfo.ForwardKeeping | tensorflow/compiler/mlir/tensorflow/analysis/resource_alias_analysis.cc:265-276 | a non-resource result changes nothing; for a resource result it succeeds exactly when the operand was seen, and the new state is Forward of the old one |
| ResourceAliasAnalysis.ResourceAliasAnalysisInfo.VisitIdentity | tensorflow/compiler/mlir/tensorflow/analysis/resource_alias_analysis.cc:284-289 | on success the new state is the old one after forwarding operand k to result k for every zipped resource result (ActAll of IdentityActions); it fails only on a zipped resource result whose operand was unseen |
| ResourceAliasAnalysis.ResourceAliasAnalysisInfo.VisitReplicate | tensorflow/compiler/mlir/tensorflow/analysis/resource_alias_analysis.cc:290-298 | the counter advances by the number of resource body arguments; the new state is the old one after giving the k-th resource body argument the counter plus the resource arguments before it (ActAll of ReplicateActions; see ReplicateFresh for distinctness) |
| ResourceAliasAnalysis.ResourceAliasAnalysisInfo.VisitWhile | tensorflow/compiler/mlir/tensorflow/analysis/resource_alias_analysis.cc:299-316 | on success the new state is the old one after forwarding each pass-through resource result from its operand and marking every other resource result unknown (ActAll of WhileActions) |
| ResourceAliasAnalysis.ResourceAliasAnalysisInfo.VisitIf | tensorflow/compiler/mlir/tensorflow/analysis/resource_alias_analysis.cc:317-339 | on success the new state is the old one after forwarding each resource result passed through by both branches from the then-input and then the else-input, and marking every other resource result unknown (ActAll of IfActions) |
| ResourceAliasAnalysis.ResourceAliasAnalysisInfo.VisitOp | tensorflow/compiler/mlir/tensorflow/analysis/resource_alias_analysis.cc:278-347 | a var handle records GetOrCreateIdForVarHandle's id and counter; every other op leaves the name map; only Identity, While and If can fail; on success each kind's new state is ActAll of its actions on the old state; a replicate op advances the counter by its resource arguments |
| ResourceAliasAnalysis.ResourceAliasAnalysisInfo.Walk | tensorflow/compiler/mlir/tensorflow/analysis/resource_alias_analysis.cc:278-348 | the maps only grow, stay inverse and keep ids below the counter |
| ResourceAliasAnalysis.ResourceAliasAnalysisInfo.Build | tensorflow/compiler/mlir/tensorflow/analysis/resource_alias_analysis.cc:233-349 | a missing attribute fails; on success the maps are inverse and no id is below the unknown one |
| ResourceAliasAnalysis.ActGrows | tensorflow/compiler/mlir/tensorflow/analysis/resource_alias_analysis.cc:278-347 | one action of the walk keeps every pair already recorded |
| ResourceAliasAnalysis.ActAllGrows | tensorflow/compiler/mlir/tensorflow/analysis/resource_alias_analysis.cc:278-347 | later actions of an op keep every pair recorded by earlier ones |
| ResourceAliasAnalysis.ActGives | tensorflow/compiler/mlir/tensorflow/analysis/resource_alias_analysis.cc:278-347 | one action leaves its result holding at least its old ids and the ids the action gives |
| ResourceAliasAnalysis.ActAllGives | tensorflow/compiler/mlir/tensorflow/analysis/resource_alias_analysis.cc:278-347 | whether or not an op's results are distinct, every result ends up holding its old ids and what its action gives |
| ResourceAliasAnalysis.ActEffect | tensorflow/compiler/mlir/tensorflow/analysis/resource_alias_analysis.cc:278-347 | one action on a result that is not its own operand: the result gains exactly what the action gives, every other value is unchanged, and exactly the given ids gain the result |
| ResourceAliasAnalysis.ActAllEffect | tensorflow/compiler/mlir/tensorflow/analysis/resource_alias_analysis.cc:278-347 | for an op whose results are distinct and are not its operands: each result gains exactly what its action gives, read in the maps before the op; every other value is unchanged; each id gains exactly the results given it |
| ResourceAliasAnalysis.ReceiversMeaning | tensorflow/compiler/mlir/tensorflow/analysis/resource_alias_analysis.cc:278-347 | the results an id is added to are those whose action gives that id |
| ResourceAliasAnalysis.MarkActionsGive | tensorflow/compiler/mlir/tensorflow/analysis/resource_alias_analysis.cc:340-346 | after marking an unknown op, every resource result holds the unknown id |
| ResourceAliasAnalysis.IdentityActionsGive | tensorflow/compiler/mlir/tensorflow/analysis/resource_alias_analysis.cc:284-289 | after an Identity op, every zipped resource result holds its operand's ids |
| ResourceAliasAnalysis.ReplicateActionsGive | tensorflow/compiler/mlir/tensorflow/analysis/resource_alias_analysis.cc:290-298 | after a replicate op, every resource body argument holds the id handed to it |
| ResourceAliasAnalysis.ReplicateFresh | tensorflow/compiler/mlir/tensorflow/analysis/resource_alias_analysis.cc:290-298 | a replicate op hands an id to exactly its resource body arguments, in [counter, counter + their number), strictly increasing and so distinct |
| ResourceAliasAnalysis.WhileActionsGive | tensorflow/compiler/mlir/tensorflow/analysis/resource_alias_analysis.cc:299-316 | after a While op, a pass-through resource result holds its operand's ids and any other resource result holds the unknown id |
| ResourceAliasAnalysis.IfActionsGive | tensorflow/compiler/mlir/tensorflow/analysis/resource_alias_analysis.cc:317-339 | after an If op, a resource result passed through by both branches holds both inputs' ids and any other resource result holds the unknown id |
| ConditionalSimplifier.BranchRun | tensorflow/compiler/xla/service/conditional_simplifier.cc:76-86 | the branch a conditional runs is always a valid branch: a PRED selector picks 0 exactly when true, an in-range index picks itself and any other index the last branch |
| ConditionalSimplifier.ConstantBranchIndexRuns | tensorflow/compiler/xla/service/conditional_simplifier.cc:76-86 | the branch index computed from a constant selector is in range and is the branch the conditional would run on that value |
| ConditionalSimplifier.TryRemoveConditional | tensorflow/compiler/xla/service/conditional_simplifier.cc:47-163 | an unremovable or side-effecting conditional is kept; a one-branch conditional is inlined; an inlined branch is in range; a select replaces it only for two branches, a computed PRED selector and no expensive instruction in either branch |
| ConditionalSimplifier.TryRemovePreservesRun | tensorflow/compiler/xla/service/conditional_simplifier.cc:47-163 | whatever TryRemoveConditional chooses computes, on every selector value, the branch and operand the conditional runs |
| ConditionalSimplifier.ShouldSwapTrueFalse | tensorflow/compiler/xla/service/conditional_simplifier.cc:551-592 | a swap needs two branches, a PRED selector, a non-trivial true branch and a trivial false branch, and never happens to a dangling conditional |
| ConditionalSimplifier.SwapPreservesRun | tensorflow/compiler/xla/service/conditional_simplifier.cc:594-619 | cond(not p, false_fn, true_fn) runs exactly what cond(p, true_fn, false_fn) runs |
| ConditionalSimplifier.SwapNotRepeated | tensorflow/compiler/xla/service/conditional_simplifier.cc:586-619 | after a swap the trivial branch is the true branch and the swap does not apply again |
| ConditionalSimplifier.UsedFlags | tensorflow/compiler/xla/service/conditional_simplifier.cc:316-326 | one flag per tuple index, set exactly when some get-tuple-element user reads that index |
| ConditionalSimplifier.Positions | tensorflow/compiler/xla/service/conditional_simplifier.cc:328-344 | the used indices from a position on, as many as are set, each in range and used |
| ConditionalSimplifier.PositionsComplete | tensorflow/compiler/xla/service/conditional_simplifier.cc:335-344 | every used index from the position on is listed |
| ConditionalSimplifier.PositionsIncreasing | tensorflow/compiler/xla/service/conditional_simplifier.cc:335-344 | the used indices are listed in increasing order |
| ConditionalSimplifier.CountTrueAll | tensorflow/compiler/xla/service/conditional_simplifier.cc:328-333 | the used count is at most the tuple size and equals it exactly when every index is used |
| ConditionalSimplifier.NewToOld | tensorflow/compiler/xla/service/conditional_simplifier.cc:335-344 | the new-to-old mapping is defined exactly on the new indices 0 to the used count |
| ConditionalSimplifier.NewToOldProperties | tensorflow/compiler/xla/service/conditional_simplifier.cc:335-344 | new-to-old is strictly increasing and maps only to used old indices |
| ConditionalSimplifier.UsedIndices | tensorflow/compiler/xla/service/conditional_simplifier.cc:316-326 | the scan refuses exactly when some user is not a get-tuple-element, and otherwise returns the used flags |
| ConditionalSimplifier.IndexMappings | tensorflow/compiler/xla/service/conditional_simplifier.cc:335-344 | the std::find loop builds new-to-old as NewToOld, old-to-new on exactly the used indices, and the two maps are inverse both ways |
| ConditionalSimplifier.FindUsed | tensorflow/compiler/xla/service/conditional_simplifier.cc:339 | std::find returns the next used index, skipping only unused ones |
| ConditionalSimplifier.Project | tensorflow/compiler/xla/service/conditional_simplifier.cc:346-354 | the new tuple keeps one element per used index |
| ConditionalSimplifier.RerouteKeepsElement | tensorflow/compiler/xla/service/conditional_simplifier.cc:346-410 | a user rerouted to its new index reads, from the pruned tuple, the element it read from the old one |
| ConditionalSimplifier.AllUsed | tensorflow/compiler/xla/service/conditional_simplifier.cc:328-333 | the pass skips exactly when every index has a get-tuple-element user |
| ConditionalSimplifier.PlanRemoval | tensorflow/compiler/xla/service/conditional_simplifier.cc:305-370 | the pass goes ahead exactly when it has users, is not the root, has a tuple shape, only get-tuple-element users, some unused index and compatible branch roots; then every user's index has a new index that maps back to it |
| ConditionalSimplifier.ConditionalOp.RemoveUnusedTupleElements | tensorflow/compiler/xla/service/conditional_simplifier.cc:305-412 | changes happen exactly under the guards above; then the arity is the used count and each user reads the new index of its old index; otherwise nothing changes |
| ConditionalSimplifier.ConditionalOp.Reroute | tensorflow/compiler/xla/service/conditional_simplifier.cc:405-410 | every user's index becomes the old-to-new image of its old index; nothing else changes |
| ConditionalSimplifier.Column | tensorflow/compiler/xla/service/conditional_simplifier.cc:499-507 | the i-th operand of every branch root, one per branch |
| ConditionalSimplifier.Earliest | tensorflow/compiler/xla/service/conditional_simplifier.cc:521-533 | the first index whose column equals the given index's column |
| ConditionalSimplifier.EarliestByColumn | tensorflow/compiler/xla/service/conditional_simplifier.cc:521-533 | indices with equal columns share their earliest index |
| ConditionalSimplifier.EarliestReadsSame | tensorflow/compiler/xla/service/conditional_simplifier.cc:521-533 | a user redirected to the earliest duplicate reads, in every branch, the operand it read before |
| ConditionalSimplifier.CheckMergeable | tensorflow/compiler/xla/service/conditional_simplifier.cc:457-487 | the merge goes ahead exactly when it has users, is not the root, has a tuple shape, only get-tuple-element users and tuple roots in every branch |
| ConditionalSimplifier.ConditionalOp.MergeDuplicateTupleElements | tensorflow/compiler/xla/service/conditional_simplifier.cc:457-536 | a refused merge changes nothing; otherwise every user reads the earliest index with the same column, and the result reports exactly whether a user changed |
| ConditionalSimplifier.ConditionalOp.MergeLoop | tensorflow/compiler/xla/service/conditional_simplifier.cc:520-535 | the collision-table loop leaves every user at the earliest duplicate of its index and reports whether any user changed |
| ConditionalSimplifier.ConditionalOp.MergeIndex | tensorflow/compiler/xla/service/conditional_simplifier.cc:524-533 | one iteration keeps the table holding the first index of every column seen so far and merges the users of the current index |
| ConditionalSimplifier.ConditionalOp.Redirect | tensorflow/compiler/xla/service/conditional_simplifier.cc:509-519 | users reading j now read i and no other user changes; the result is whether some user read j |
| ConditionalSimplifier.TableSeen | tensorflow/compiler/xla/service/conditional_simplifier.cc:524-532 | a failed emplace finds the earliest index with the same column, which is not the current one |
| ConditionalSimplifier.TableNew | tensorflow/compiler/xla/service/conditional_simplifier.cc:524-527 | a successful emplace happens only at the first index of its column, and the grown table still holds |
| ConditionalSimplifier.MergeAdvance | tensorflow/compiler/xla/service/conditional_simplifier.cc:528-532 | redirecting the users of index i extends the merge to i and changes users exactly when a duplicate index had users |
| ConditionalThunk.GetConditionalThunkConfig | tensorflow/compiler/xla/service/gpu/conditional_thunk.cc:27-45 | the selector is boolean exactly when operand 0 is PRED, and the branch count and thunks are kept |
| ConditionalThunk.FirstFailure | tensorflow/compiler/xla/service/gpu/conditional_thunk.cc:64-67 | OK exactly when every branch initialisation is OK, and otherwise one of their errors |
| ConditionalThunk.Initialize | tensorflow/compiler/xla/service/gpu/conditional_thunk.cc:57-68 | a boolean selector without exactly two branches, or an index selector without branches, is an Internal error; OK exactly when the shape is right and every branch initialises |
| ConditionalThunk.BranchIndexInRange | tensorflow/compiler/xla/service/gpu/conditional_thunk.cc:92-99 | the branch index is always a valid branch and is the branch the conditional's semantics choose |
| ConditionalThunk.ExecuteOnStream | tensorflow/compiler/xla/service/gpu/conditional_thunk.cc:70-108 | a failed wait is an Internal error with no branch run; otherwise exactly the chosen in-range branch runs and its status is returned |
| ConditionalThunk.ConstantFoldingAgrees | tensorflow/compiler/xla/service/gpu/conditional_thunk.cc:92-99 | folding a constant selector at compile time inlines the branch the thunk would run on that constant |
| FrameIterations.InitialFrame | tensorflow/core/common_runtime/propagator_state.cc:657-666 | a new frame has iteration 0 outstanding with no ops and no child frames, as its oldest and newest iteration |
| FrameIterations.IsIterationDoneMeans | tensorflow/core/common_runtime/propagator_state.cc:601-613 | an outstanding iteration is done exactly when it has no outstanding ops or child frames, it is the oldest outstanding iteration, and for iteration 0 no input is pending |
| FrameIterations.Replaced | tensorflow/core/common_runtime/propagator_state.cc:668-677 | storing new counts for an outstanding iteration changes that iteration and no other, and keeps the frame's invariant |
| FrameIterations.AddOps | tensorflow/core/common_runtime/propagator_state.cc:151-155 | activating nodes in an outstanding iteration adds to its outstanding ops only |
| FrameIterations.IncrementIteration | tensorflow/core/common_runtime/propagator_state.cc:616-633 | the iteration count and the outstanding count each rise by one, dead exits and deferred roots are cleared, the new iteration starts with the ops its deferred roots and loop invariants activate, and every older iteration is unchanged |
| FrameIterations.Retire | tensorflow/core/common_runtime/propagator_state.cc:639-642 | deleting the oldest iteration lowers the outstanding count by one, raises the oldest iteration by one and keeps the others |
| FrameIterations.DeleteOldest | tensorflow/core/common_runtime/propagator_state.cc:638-649 | one round of cleanup deletes the oldest iteration and starts a deferred iteration exactly when deferred roots are waiting |
| FrameIterations.CleanupFrom | tensorflow/core/common_runtime/propagator_state.cc:635-655 | cleanup keeps the frame's invariant and never lowers the iteration count |
| FrameIterations.CleanupUnfold | tensorflow/core/common_runtime/propagator_state.cc:638 | the cleanup loop ends, changing nothing more, at the first iteration it does not delete |
| FrameIterations.CleanupAdvance | tensorflow/core/common_runtime/propagator_state.cc:638-653 | each round of the cleanup loop moves to the next iteration, which is outstanding or one past the newest, and lowers the loop's measure |
| FrameIterations.CleanupOldest | tensorflow/core/common_runtime/propagator_state.cc:635-655 | cleanup deletes consecutive iterations from the oldest one on: the oldest outstanding iteration moves up by the number deleted, and deleting nothing changes nothing |
| FrameIterations.CleanupCounts | tensorflow/core/common_runtime/propagator_state.cc:641-649 | the outstanding count falls once per deleted iteration, and at most one iteration (the deferred one) starts |
| FrameIterations.CleanupRoots | tensorflow/core/common_runtime/propagator_state.cc:647-649 | cleanup that deletes anything clears the deferred roots, and always keeps the loop invariants and the pending input count |
| FrameIterations.CleanupKeeps | tensorflow/core/common_runtime/propagator_state.cc:635-655 | cleanup leaves the iterations it does not delete unchanged |
| FrameIterations.CleanupStops | tensorflow/core/common_runtime/propagator_state.cc:638 | cleanup stops at the first iteration that is not done |
| FrameIterations.CleanupDeletesDone | tensorflow/core/common_runtime/propagator_state.cc:601-613 | every iteration cleanup deletes had no outstanding ops and no outstanding child frames |
| FrameIterations.DecrementOutstandingOps | tensorflow/core/common_runtime/propagator_state.cc:689-698 | one op of the iteration finishes; only when its count reaches zero does cleanup run, and the result says whether the frame is then done |
| FrameIterations.AddChildFrame | tensorflow/core/common_runtime/propagator_state.cc:272-276 | creating a child frame adds one outstanding frame to that iteration and changes nothing else |
| FrameIterations.ChildFrameDone | tensorflow/core/common_runtime/propagator_state.cc:361-368 | a finished child frame lowers its iteration's frame count, cleanup runs from that iteration, and the result says whether the frame is done |
| FrameIterations.RouteNextIteration | tensorflow/core/common_runtime/propagator_state.cc:130-150 | a dead NextIteration output is dropped; a live one in the newest iteration is deferred exactly when max_parallel_iterations iterations are outstanding, starts a new iteration otherwise, and goes to the already outstanding next iteration when it is not in the newest |
| FrameIterations.RouteOutput | tensorflow/core/common_runtime/propagator_state.cc:128-153 | routing keeps the node's own iteration outstanding with its counts unchanged, and keeps the loop invariants and pending inputs |
| FrameIterations.DeferredStartsLater | tensorflow/core/common_runtime/propagator_state.cc:136-141 | a deferred output waits in the deferred roots while no iteration is deleted; otherwise it has started the next iteration, the only one started, and the roots are cleared |
| FrameIterations.RingStart | tensorflow/core/common_runtime/propagator_state.cc:39-41 | after the first SetIteration the slots hold iteration 0 in slot 0 and nothing else |
| FrameIterations.RingHolds | tensorflow/core/common_runtime/propagator_state.cc:668-677 | every outstanding iteration k is found in slot k mod (max_parallel_iterations + 1) |
| FrameIterations.RingPredecessor | tensorflow/core/common_runtime/propagator_state.cc:607-609 | the slot of the iteration before an outstanding one is empty exactly when that iteration is no longer outstanding |
| FrameIterations.IsIterationDoneAgrees | tensorflow/core/common_runtime/propagator_state.cc:601-613 | reading the predecessor's slot decides the same as asking whether the predecessor is outstanding |
| FrameIterations.RingNextFree | tensorflow/core/common_runtime/propagator_state.cc:617-622 | the slot of the next iteration is empty while fewer than max_parallel_iterations iterations are outstanding, so an occupied slot is never overwritten |
| FrameIterations.RingReplace | tensorflow/core/common_runtime/propagator_state.cc:668-677 | storing new counts in an iteration's slot keeps the ring |
| FrameIterations.RingRetire | tensorflow/core/common_runtime/propagator_state.cc:639-640 | clearing the oldest iteration's slot keeps the ring of the frame without it |
| FrameIterations.RingIncrement | tensorflow/core/common_runtime/propagator_state.cc:617-622 | the new iteration goes into an empty slot and the ring then holds the incremented frame |
| FrameIterations.RingEmpty | tensorflow/core/common_runtime/propagator_state.cc:701-704 | a frame with no outstanding iterations holds nothing in its slots |
| PropagatorState.FrameState.constructor | tensorflow/core/common_runtime/propagator_state.cc:248-265 | a new frame with the given parallelism holds iteration 0 in its slots and has its input count pending |
| PropagatorState.FrameState.SetIteration | tensorflow/core/common_runtime/propagator_state.cc:668-677 | the state goes into slot iter mod (max_parallel_iterations + 1) and no other slot changes |
| PropagatorState.FrameState.GetIteration | tensorflow/core/common_runtime/propagator_state.cc:668-677 | the slot of an outstanding iteration holds that iteration's state |
| PropagatorState.FrameState.IsIterationDone | tensorflow/core/common_runtime/propagator_state.cc:601-613 | the answer read from the slots is the frame-level IsIterationDone |
| PropagatorState.FrameState.IsFrameDone | tensorflow/core/common_runtime/propagator_state.cc:701-704 | true exactly when no input is pending and no iteration is outstanding |
| PropagatorState.FrameState.ActivateEach | tensorflow/core/common_runtime/propagator_state.cc:562-585 | the ops found by activating each item in turn are their total |
| PropagatorState.FrameState.ActivateNexts | tensorflow/core/common_runtime/propagator_state.cc:562-573 | the deferred roots are activated in the new iteration and then cleared |
| PropagatorState.FrameState.ActivateLoopInvs | tensorflow/core/common_runtime/propagator_state.cc:575-585 | the loop invariants are activated in the new iteration |
| PropagatorState.FrameState.IncrementIteration | tensorflow/core/common_runtime/propagator_state.cc:616-633 | the frame becomes IncrementIteration of its old state, with the new iteration in its slot |
| PropagatorState.FrameState.Update | tensorflow/core/common_runtime/propagator_state.cc:668-677 | an outstanding iteration's new counts are stored in its slot; the frame is Replaced of its old state |
| PropagatorState.FrameState.DeleteIteration | tensorflow/core/common_runtime/propagator_state.cc:639-641 | the oldest iteration's slot is cleared and one iteration fewer is outstanding |
| PropagatorState.FrameState.CleanupStep | tensorflow/core/common_runtime/propagator_state.cc:638-652 | one round of the cleanup loop is DeleteOldest of the old state, and the loop goes on towards the same result |
| PropagatorState.FrameState.CleanupIterations | tensorflow/core/common_runtime/propagator_state.cc:635-655 | the loop's final state is CleanupFrom of the starting state, and the result is IsFrameDone of it |
| PropagatorState.FrameState.DecrementOutstandingOps | tensorflow/core/common_runtime/propagator_state.cc:689-698 | the state and result are DecrementOutstandingOps of the old state |
| PropagatorState.FrameState.ChildFrameDone | tensorflow/core/common_runtime/propagator_state.cc:361-368 | the state and result are ChildFrameDone of the old state |
| PropagatorState.FrameState.AddChildFrame | tensorflow/core/common_runtime/propagator_state.cc:272-276 | the state is AddChildFrame of the old state |
| PropagatorState.FrameState.RouteOutput | tensorflow/core/common_runtime/propagator_state.cc:128-153 | the state is RouteOutput of the old state |
| PropagatorState.FrameState.AddOps | tensorflow/core/common_runtime/propagator_state.cc:151-155 | the state is AddOps of the old state |
| PropagatorState.FrameState.PropagateNextIteration | tensorflow/core/common_runtime/propagator_state.cc:128-158 | the state and result are PropagateNextIteration of the old state |
| PropagatorState.ChildName | tensorflow/core/common_runtime/propagator_state.cc:231-232 | the child frame name is the parent's name, the iteration number and the Enter frame name, joined by ';' |
| PropagatorState.ChildNameInjective | tensorflow/core/common_runtime/propagator_state.cc:231-232 | different parents, iterations or Enter frame names give different child names, when Enter frame names hold no ';' |
| PropagatorState.PropagatorState.constructor | tensorflow/core/common_runtime/propagator_state.cc:26-44 | the root frame is registered under the empty name with parallelism 1 and iteration 0 |
| PropagatorState.PropagatorState.FindOrCreateChildFrame | tensorflow/core/common_runtime/propagator_state.cc:222-281 | a frame already filed under the child name is returned with nothing changed; otherwise a fresh frame with iteration 0 is filed under that name and its iteration gains one outstanding child frame; every frame stays filed under its own name |
| ParallelMapDataset.ValidateNumParallelCalls | tensorflow/core/kernels/data/parallel_map_dataset_op.cc:698-700 | num_parallel_calls is accepted iff it is positive or the autotune sentinel; otherwise InvalidArgument |
| ParallelMapDataset.Cardinality | tensorflow/core/kernels/data/parallel_map_dataset_op.cc:112-118 | the input's cardinality when preserve_cardinality is set, unknown cardinality otherwise |
| ParallelMapDataset.OpVersion | tensorflow/core/kernels/data/parallel_map_dataset_op.cc:657 | the kernel is version 1 iff it has the sloppy attribute, version 2 otherwise |
| ParallelMapDataset.PolicyFromSloppy | tensorflow/core/kernels/data/parallel_map_dataset_op.cc:665-674 | version 1 is nondeterministic iff sloppy, and never explicitly deterministic |
| ParallelMapDataset.SloppyMeansOutOfOrder | tensorflow/core/kernels/data/parallel_map_dataset_op.cc:201-202 | the iterator runs in deterministic mode iff the version-1 kernel is not sloppy |
| ParallelMapDataset.InitializedParallelism | tensorflow/core/kernels/data/parallel_map_dataset_op.cc:213-215 | Initialize replaces the autotune sentinel by the thread-pool size and keeps any other value |
| ParallelMapDataset.ValidatedParallelismPositive | tensorflow/core/kernels/data/parallel_map_dataset_op.cc:698-700 | a validated parallelism is at least one after Initialize on a non-empty thread pool |
| ParallelMapDataset.Pending | tensorflow/core/kernels/data/parallel_map_dataset_op.cc:360-365 | a fresh invocation result is not notified, has OK status, no values and is not end-of-input |
| ParallelMapDataset.CallFunction | tensorflow/core/kernels/data/parallel_map_dataset_op.cc:402-448 | an input error or end of input completes the call with the input's status and no values; otherwise the function's status and outputs are stored, with end_of_input false |
| ParallelMapDataset.Complete | tensorflow/core/kernels/data/parallel_map_dataset_op.cc:392-400 | a completed result is notified and carries the call's status, values and end-of-input flag, under the same identity |
| ParallelMapDataset.ProcessResult | tensorflow/core/kernels/data/parallel_map_dataset_op.cc:450-477 | an OK result that is not end-of-input delivers exactly its values with end_of_sequence false; OutOfRange becomes InvalidArgument when cardinality is preserved and end of sequence otherwise; any other result yields its status and end-of-input flag |
| ParallelMapDataset.ProcessResultPreservesCardinality | tensorflow/core/kernels/data/parallel_map_dataset_op.cc:459-470 | OutOfRange never escapes ProcessResult, and with preserved cardinality end of sequence is reported only at end of input |
| ParallelMapDataset.MappedCallDelivers | tensorflow/core/kernels/data/parallel_map_dataset_op.cc:402-477 | from input element to GetNext: the mapped function's outputs are delivered iff the input and the function succeed; a function OutOfRange ends the sequence only without preserved cardinality; end of input ends it |
| ParallelMapDataset.FirstAvailableFrom | tensorflow/core/kernels/data/parallel_map_dataset_op.cc:525-540 | the first notified result that is at the front or not end-of-input, with none before it; none when no result qualifies |
| ParallelMapDataset.Selected | tensorflow/core/kernels/data/parallel_map_dataset_op.cc:520-550 | the position ShouldWait takes, always inside the deque |
| ParallelMapDataset.SelectionRule | tensorflow/core/kernels/data/parallel_map_dataset_op.cc:520-550 | once cancelled nothing is taken; deterministic mode takes the front iff the deque is non-empty; nondeterministic mode takes the earliest notified result, end-of-input only at the front, takes a notified front, and waits only when no result qualifies |
| ParallelMapDataset.RemoveAt | tensorflow/core/kernels/data/parallel_map_dataset_op.cc:533-534 | erasing a position keeps the other results in order |
| ParallelMapDataset.Completed | tensorflow/core/kernels/data/parallel_map_dataset_op.cc:392-400 | completing a call fills in and notifies the entry with its id and leaves every other entry unchanged |
| ParallelMapDataset.FreshIds | tensorflow/core/kernels/data/parallel_map_dataset_op.cc:504-508 | one round schedules the given number of calls |
| ParallelMapDataset.FreshResults | tensorflow/core/kernels/data/parallel_map_dataset_op.cc:504-508 | one round appends the given number of results |
| ParallelMapDataset.FreshAt | tensorflow/core/kernels/data/parallel_map_dataset_op.cc:504-508 | the j-th call of a round has id start + j and a fresh pending result |
| ParallelMapDataset.ScheduledCount | tensorflow/core/kernels/data/parallel_map_dataset_op.cc:488-509 | a busy runner schedules nothing; otherwise it schedules at least one call and stops exactly when the calls in flight or the buffered results reach the parallelism, never beyond it |
| ParallelMapDataset.SaveResults | tensorflow/core/kernels/data/parallel_map_dataset_op.cc:257-296 | a checkpoint holds every buffered result's status, values and end-of-input flag, in deque order |
| ParallelMapDataset.RestoreResults | tensorflow/core/kernels/data/parallel_map_dataset_op.cc:297-340 | restoring rebuilds one notified result per saved entry, in order, with fresh increasing ids |
| ParallelMapDataset.SaveRestoreRoundTrip | tensorflow/core/kernels/data/parallel_map_dataset_op.cc:257-340 | saving a restored checkpoint gives the checkpoint back, and restoring a saved deque gives every result back in order, ready to consume |
| ParallelMapDataset.ConsistentSchedule | tensorflow/core/kernels/data/parallel_map_dataset_op.cc:504-508 | scheduling one more call keeps every call in flight counted and ids increasing |
| ParallelMapDataset.FillingCount | tensorflow/core/kernels/data/parallel_map_dataset_op.cc:488-509 | while not busy one more call fits in the scheduled count, and once busy exactly that many calls were made |
| ParallelMapDataset.FillingStep | tensorflow/core/kernels/data/parallel_map_dataset_op.cc:504-508 | each iteration of the fill loop extends the round by one fresh call |
| ParallelMapDataset.MapIterator.constructor | tensorflow/core/kernels/data/parallel_map_dataset_op.cc:195-204 | a new iterator is deterministic for the deterministic and default policies, autotuned iff the sentinel was given, with no calls in flight, an empty deque and not cancelled |
| ParallelMapDataset.MapIterator.Initialize | tensorflow/core/kernels/data/parallel_map_dataset_op.cc:211-216 | the parallelism becomes InitializedParallelism of the old value |
| ParallelMapDataset.MapIterator.CancelThreads | tensorflow/core/kernels/data/parallel_map_dataset_op.cc:367-375 | the iterator is cancelled |
| ParallelMapDataset.MapIterator.FillCalls | tensorflow/core/kernels/data/parallel_map_dataset_op.cc:504-508 | the runner appends ScheduledCount fresh results, one new call and one in-flight call each, ends busy, keeps the invariant, and never grows a buffer within the parallelism beyond it |
| ParallelMapDataset.MapIterator.ScheduleOne | tensorflow/core/kernels/data/parallel_map_dataset_op.cc:505-507 | one fresh result is appended and its call counted in flight |
| ParallelMapDataset.MapIterator.RunnerStep | tensorflow/core/kernels/data/parallel_map_dataset_op.cc:479-516 | a cancelled runner stops and a busy one waits, both without changes; otherwise it schedules ScheduledCount calls (at least one) and ends busy |
| ParallelMapDataset.MapIterator.CallCompleted | tensorflow/core/kernels/data/parallel_map_dataset_op.cc:392-400 | one call fewer is in flight and its result is filled in and notified wherever it sits in the deque |
| ParallelMapDataset.MapIterator.ShouldWait | tensorflow/core/kernels/data/parallel_map_dataset_op.cc:520-550 | waits iff not cancelled and nothing is selected; otherwise the selected result is removed and returned, the rest kept in order; in deterministic mode the taken result was scheduled before every result still buffered |
| ParallelMapDataset.MapIterator.RemovePreserves | tensorflow/core/kernels/data/parallel_map_dataset_op.cc:533-546 | removing a result keeps the iterator's invariant, and removing the front leaves only later-scheduled results |
| ParallelMapDataset.MapIterator.GetNext | tensorflow/core/kernels/data/parallel_map_dataset_op.cc:225-247 | a cancelled iterator reports Cancelled and a waiting one takes nothing; otherwise the selected result is removed and, if its call has finished, processed by ProcessResult, or else its still-running call is awaited |
| ParallelMapDataset.MapIterator.Save | tensorflow/core/kernels/data/parallel_map_dataset_op.cc:257-296 | the step waits exactly while calls are in flight; with none in flight it saves the checkpoint of the deque (see SaveRestoreRoundTrip); it never fails |
| ParallelMapDataset.MapIterator.Restore | tensorflow/core/kernels/data/parallel_map_dataset_op.cc:297-340 | the deque becomes the restored checkpoint with fresh ids, and the invariant holds |
| BatchResourceBase.FlattenPieces | tensorflow/core/kernels/batching_util/batch_resource_base.cc:311-366 | cutting rows at sizes that add up to their count and concatenating the pieces in order gives the rows back |
| BatchResourceBase.PiecesFlatten | tensorflow/core/kernels/batching_util/batch_resource_base.cc:372-437 | concatenating row blocks and cutting the result at the blocks' lengths gives back the blocks |
| BatchResourceBase.PiecesFlattenPadded | tensorflow/core/kernels/batching_util/batch_resource_base.cc:382-431 | the same with padding rows appended and one more cut for them: the pieces before the padding are the original blocks |
| BatchResourceBase.FirstAtLeast | tensorflow/core/kernels/batching_util/batch_resource_base.cc:187-191 | the index found holds an allowed size at least the batch size and every earlier one is smaller; none is found only when all are smaller |
| BatchResourceBase.RoundToLowestMeans | tensorflow/core/kernels/batching_util/batch_resource_base.cc:184-196 | the rounded size is the first allowed size at least the batch size, the batch size itself when the list is empty or no size fits, and never below the batch size |
| BatchResourceBase.GetBatcherQueueOptions | tensorflow/core/kernels/batching_util/batch_resource_base.cc:137-166 | the limits are copied; only with large-batch splitting is the split function installed and the largest execution batch set, to the last allowed size or to max_batch_size when none are given |
| BatchResourceBase.PaddedWithinExecutionLimit | tensorflow/core/kernels/batching_util/batch_resource_base.cc:156-162 | with splitting and increasing allowed sizes, a batch within the execution limit is padded to an allowed size no larger than the last one |
| BatchResourceBase.MakeTask | tensorflow/core/kernels/batching_util/batch_resource_base.cc:98-113 | the task is built exactly when every input has rank at least 1 and, with two or more inputs, all share the first's 0th dimension; otherwise InvalidArgument |
| BatchResourceBase.ValidateBatch | tensorflow/core/kernels/batching_util/batch_resource_base.cc:168-179 | OK exactly when every task has as many inputs as the first (so also for an empty batch); otherwise InvalidArgument |
| BatchResourceBase.BatchResource.LookupOrCreateBatcherQueue | tensorflow/core/kernels/batching_util/batch_resource_base.cc:617-640 | an existing queue is reused unchanged; otherwise a new empty queue is added under the name, unless adding it fails, whose status is returned with nothing added |
| BatchResourceBase.BatchResource.RegisterInput | tensorflow/core/kernels/batching_util/batch_resource_base.cc:90-135 | invalid inputs are InvalidArgument with no queue touched; otherwise the task with guid, inputs and split index 0 is appended to the named queue, created when missing |
| BatchResourceBase.ChunksMeans | tensorflow/core/kernels/batching_util/batch_resource_base.cc:303-307 | the chunks are positive, at most max_batch_size, all but the last exactly max_batch_size, and add up to the rows left |
| BatchResourceBase.SplitSizesMeans | tensorflow/core/kernels/batching_util/batch_resource_base.cc:299-307 | the split sizes are positive, begin with the open slot when it is positive, are at most max_batch_size after it, and add up to the task size |
| BatchResourceBase.ComputeSplitSizes | tensorflow/core/kernels/batching_util/batch_resource_base.cc:299-307 | the loop yields the open slot when positive followed by the chunks of the rest |
| BatchResourceBase.PieceInputs | tensorflow/core/kernels/batching_util/batch_resource_base.cc:335-363 | split task j receives piece j of every input tensor, with the input's rank |
| BatchResourceBase.SplitInputTask | tensorflow/core/kernels/batching_util/batch_resource_base.cc:258-366 | the sizes are the split sizes, and output task j has the input's guid, split index j, is partial and holds piece j of every input |
| BatchResourceBase.SplitThenJoin | tensorflow/core/kernels/batching_util/batch_resource_base.cc:270-296 | concatenating the split tasks' pieces of an input in split order gives back that input, and each split task's size is its split size |
| BatchResourceBase.PrefixSumIsSum | tensorflow/core/kernels/batching_util/batch_resource_base.cc:604-612 | the running offset after j tasks is the sum of their sizes |
| BatchResourceBase.EmitIndexTensor | tensorflow/core/kernels/batching_util/batch_resource_base.cc:596-615 | row j of the index holds task j's guid, the offset before it and the offset after it |
| BatchResourceBase.IndexRowsContiguous | tensorflow/core/kernels/batching_util/batch_resource_base.cc:604-612 | index rows start at 0, each ends where the next begins, each spans its task's size, and the last ends at the batch size |
| BatchResourceBase.ConcatInput | tensorflow/core/kernels/batching_util/batch_resource_base.cc:219-249 | input i is the tasks' rows in order followed by copies of the first task's first row, one per padding row; padding from an input with no rows is InvalidArgument |
| BatchResourceBase.ConcatInputTensors | tensorflow/core/kernels/batching_util/batch_resource_base.cc:198-254 | an empty batch is InvalidArgument; otherwise it succeeds exactly when every input can be padded, and output i is input i concatenated and padded |
| BatchResourceBase.CheckOutput | tensorflow/core/kernels/batching_util/batch_resource_base.cc:400-410 | an output passes exactly when it has a dimension and its 0th dimension is the batch size plus the padding |
| BatchResourceBase.OutputPieces | tensorflow/core/kernels/batching_util/batch_resource_base.cc:377-431 | a checked output is cut into one piece per task, the padding piece dropped |
| BatchResourceBase.SplitOutputTensors | tensorflow/core/kernels/batching_util/batch_resource_base.cc:369-437 | no tasks or a wrong number of outputs is Internal; a failed output check is FailedPrecondition; otherwise output i is cut into one piece per task |
| BatchResourceBase.BatchingRoundTrip | tensorflow/core/kernels/batching_util/batch_resource_base.cc:198-437 | when the batched computation returns its concatenated input, the output passes the checks and task j's piece is exactly task j's own input rows |
| BatchResourceBase.ConcatRowsArePadded | tensorflow/core/kernels/batching_util/batch_resource_base.cc:205-249 | every concatenated input has as many rows as the rounded batch size |
| Rebatch.IsDatasetNodeOfTypeMeans | tensorflow/core/grappler/optimizers/data/rebatch.cc:124-131 | the scan of an op list finds the op exactly when the op is one of the list's names |
| Rebatch.KindOfMeans | tensorflow/core/grappler/optimizers/data/rebatch.cc:39-91 | the five op lists are disjoint, so each op falls in the branch of the one list it is in, and an op in no list in the unsupported branch |
| Rebatch.LastIndexBefore | tensorflow/core/grappler/optimizers/data/rebatch.cc:171-174 | the name map holds for each name the position of its last node, because insert_or_assign lets a later node replace an earlier one |
| Rebatch.IndexNames | tensorflow/core/grappler/optimizers/data/rebatch.cc:169-174 | every node name maps to the position of its last node and starts with an input count of 0, and no other name is present |
| Rebatch.CountInputs | tensorflow/core/grappler/optimizers/data/rebatch.cc:175-181 | each name's count is the number of node inputs naming it, names that are no node's included |
| Rebatch.FirstSinkMeans | tensorflow/core/grappler/optimizers/data/rebatch.cc:182-195 | the sink found is a node with at least one input whose name is an input of no node; none is found only when no node qualifies |
| Rebatch.UsedNodeIsNotSink | tensorflow/core/grappler/optimizers/data/rebatch.cc:175-192 | a node whose name feeds another node is never chosen as the sink |
| Rebatch.FindSinkNode | tensorflow/core/grappler/optimizers/data/rebatch.cc:168-195 | the sink is the first qualifying node, and with none InvalidArgument |
| Rebatch.MutateBatchSizeRefines | tensorflow/core/grappler/optimizers/data/rebatch.cc:133-162 | the batching node's batch size now reads the old value divided by num_workers, and no other node and no other part of that node changes |
| Rebatch.BatchOpRewritten | tensorflow/core/grappler/optimizers/data/rebatch.cc:211-212 | a batching op is rewritten and the walk does not go past it |
| Rebatch.MultiInputHandlesAll | tensorflow/core/grappler/optimizers/data/rebatch.cc:213-219 | a zip or concatenate op handles every one of its inputs in order, each in the graph left by the previous, stopping at the first failure |
| Rebatch.PassThroughFollowsInputZero | tensorflow/core/grappler/optimizers/data/rebatch.cc:220-225 | a pass-through op continues at the node of its input 0 only |
| Rebatch.ReplaceFunction | tensorflow/core/grappler/optimizers/data/rebatch.cc:237-250 | after a function body is rewritten the graph's nodes are unchanged, the new functions are added, and the function gets the rewritten body while the others keep theirs |
| Rebatch.AddMissing | tensorflow/core/grappler/optimizers/data/rebatch.cc:237-242 | functions of the rewritten body's library are added only under names the library does not have, so existing functions are kept |
| Rebatch.FuncOpRewritesBody | tensorflow/core/grappler/optimizers/data/rebatch.cc:226-251 | a flat-map style op rewrites its function body; when that rewrite is rejected the status is dropped and the graph is unchanged |
| Rebatch.SourceOrUnsupportedRejected | tensorflow/core/grappler/optimizers/data/rebatch.cc:252-259 | reaching a source dataset, or an op in none of the lists, is InvalidArgument |
| Rebatch.HandleOpRefines | tensorflow/core/grappler/optimizers/data/rebatch.cc:208-261 | whatever the walk rewrites keeps every node's name, op, inputs and function; only batching ops' batch sizes change, each by further division by num_workers |
| Rebatch.HandleInputsRefines | tensorflow/core/grappler/optimizers/data/rebatch.cc:213-219 | the same for the loop over a multi-input op's inputs |
| Rebatch.HandlePassThroughRefines | tensorflow/core/grappler/optimizers/data/rebatch.cc:220-225 | the same for the step into input 0 of a pass-through op |
| Rebatch.HandleFuncRefines | tensorflow/core/grappler/optimizers/data/rebatch.cc:226-251 | the same for rewriting a function body: the graph's nodes are untouched |
| Rebatch.OptimizeGraphRefines | tensorflow/core/grappler/optimizers/data/rebatch.cc:266-279 | a graph without a sink is InvalidArgument, and a rewritten graph keeps its shape with only batch sizes divided |
| Rebatch.RebatchOptimizer.Init | tensorflow/core/grappler/optimizers/data/rebatch.cc:29-35 | without a config, num_workers is unchanged and the status is OK; with one, num_workers is read from its parameter map |
| Rebatch.RebatchOptimizer.OptimizeAndCollectStats | tensorflow/core/grappler/optimizers/data/rebatch.cc:283-293 | the result is the rewrite with the configured num_workers, which keeps the graph's shape, and a successful rewrite counts one change |
| ModelBuilder.SetScalarDimensions | tensorflow/lite/delegates/gpu/common/model_builder.cc:120-133 | succeeds iff every dimension is 1 (InvalidArgument otherwise); v is then 1, which is the array's element count |
| ModelBuilder.SetLinearDimensions | tensorflow/lite/delegates/gpu/common/model_builder.cc:135-148 | an empty array is InvalidArgument; succeeds iff every dimension but the last is 1, and v is the last dimension, equal to the element count |
| ModelBuilder.SetHwcDimensions | tensorflow/lite/delegates/gpu/common/model_builder.cc:150-162 | rank other than 4 is InvalidArgument, batch other than 1 is Unimplemented; on success the array is [1, h, w, c] |
| ModelBuilder.SetHwDimensions | tensorflow/lite/delegates/gpu/common/model_builder.cc:164-172 | succeeds iff the rank is 2 and the array is [h, w]; InvalidArgument otherwise |
| ModelBuilder.SetOhwiDimensions | tensorflow/lite/delegates/gpu/common/model_builder.cc:174-186 | succeeds iff the rank is 4 and the array is [o, h, w, i]; InvalidArgument otherwise |
| ModelBuilder.SetIhwoDimensions | tensorflow/lite/delegates/gpu/common/model_builder.cc:188-200 | succeeds iff the rank is 4 and the array is [i, h, w, o]; InvalidArgument otherwise |
| ModelBuilder.SetBhwcDimensions | tensorflow/lite/delegates/gpu/common/model_builder.cc:202-210 | succeeds iff the rank is 4 and the array is [b, h, w, c]; InvalidArgument otherwise |
| ModelBuilder.SetDimensionsRoundTrip | tensorflow/lite/delegates/gpu/common/model_builder.cc:150-210 | every shape written out as its dimension array reads back as itself |
| ModelBuilder.ExtractTensorShape | tensorflow/lite/delegates/gpu/common/model_builder.cc:660-680 | succeeds iff the rank is 1 to 4 (InvalidArgument otherwise); axes the rank lacks are 1 and dropping them gives back the input array |
| ModelBuilder.ExtractTensorShapeRoundTrip | tensorflow/lite/delegates/gpu/common/model_builder.cc:660-680 | a shape whose missing axes are 1 is extracted from its own dimension array, and rank 4 agrees with the BHWC conversion |
| ModelBuilder.ExtractKeepsElementCount | tensorflow/lite/delegates/gpu/common/model_builder.cc:664-684 | the extracted shape holds as many elements as the tensor |
| ModelBuilder.ToHW | tensorflow/lite/delegates/gpu/common/model_builder.cc:517 | both results are positive and positive inputs are kept |
| ModelBuilder.CheckMaxSupportedOpVersion | tensorflow/lite/delegates/gpu/common/model_builder.cc:570-579 | OK iff the version is at most the maximum, Unimplemented otherwise |
| ModelBuilder.CheckExactSupportedOpVersion | tensorflow/lite/delegates/gpu/common/model_builder.cc:581-589 | OK iff the version is the expected one, Unimplemented otherwise |
| ModelBuilder.CheckKernels | tensorflow/lite/delegates/gpu/common/model_builder.cc:592-599 | OK iff both kernel extents are positive, InvalidArgument otherwise |
| ModelBuilder.CheckStrides | tensorflow/lite/delegates/gpu/common/model_builder.cc:601-608 | OK iff both strides are positive, InvalidArgument otherwise |
| ModelBuilder.CheckDilation | tensorflow/lite/delegates/gpu/common/model_builder.cc:610-618 | OK iff both dilation factors are positive, InvalidArgument otherwise |
| ModelBuilder.CheckStridesAndDilation | tensorflow/lite/delegates/gpu/common/model_builder.cc:620-625 | OK iff all four values are positive, InvalidArgument otherwise |
| ModelBuilder.CheckKernelsAndStrides | tensorflow/lite/delegates/gpu/common/model_builder.cc:627-632 | OK iff all four values are positive, InvalidArgument otherwise |
| ModelBuilder.ParsePoolingAttributes | tensorflow/lite/delegates/gpu/common/model_builder.cc:651-658 | the parsed kernel and strides always pass the kernel and stride checks, and positive options are kept as given |
| ModelBuilder.UpdateIfNegativeMeans | tensorflow/lite/delegates/gpu/common/model_builder.cc:1943-1957 | non-negative ends are unchanged; ends within [-size, size] land in [0, size] and a second update leaves them alone |
| ModelBuilder.ParseSlice | tensorflow/lite/delegates/gpu/common/model_builder.cc:1900-1939 | unequal begin and size lengths are InvalidArgument, ranks other than 3 and 4 and any output mismatch Unimplemented; on success the selected extent is the output shape with unit strides |
| ModelBuilder.ParseSliceAccepts | tensorflow/lite/delegates/gpu/common/model_builder.cc:1900-1939 | a rank-4 slice with non-negative begin and size and matching output is accepted with ends begin + size |
| ModelBuilder.CheckOptionsSupport | tensorflow/lite/delegates/gpu/common/model_builder.cc:2204-2216 | OK iff the ellipsis, new-axis and shrink-axis masks are all zero, Unimplemented otherwise |
| ModelBuilder.ParseStridedSlice | tensorflow/lite/delegates/gpu/common/model_builder.cc:2053-2115 | ranks other than 3 and 4 are Unimplemented; on success the strides are positive and the strided extent is the output shape, and a rank-3 slice takes the whole batch with stride 1 |
| ModelBuilder.StridedSliceFullMask | tensorflow/lite/delegates/gpu/common/model_builder.cc:2117-2147 | with all begin and end mask bits set and unit strides the slice selects the whole input |
| ModelBuilder.ParseTransposePerm | tensorflow/lite/delegates/gpu/common/model_builder.cc:2286-2296 | ranks other than 2 to 4 are InvalidArgument; a shorter permutation fills the trailing axes shifted by the missing rank, leading axes in place |
| ModelBuilder.TransposePermIsPermutation | tensorflow/lite/delegates/gpu/common/model_builder.cc:2286-2296 | a permutation of rank 2 to 4 becomes a permutation of the four BHWC axes |
| ModelBuilder.ParseMeanAxes | tensorflow/lite/delegates/gpu/common/model_builder.cc:2579-2601 | succeeds iff every axis is 1 or 2 (Unimplemented otherwise); the result holds Height iff 1 occurs and Width iff 2 occurs |
| ModelBuilder.CheckPadSupported | tensorflow/lite/delegates/gpu/common/model_builder.cc:1578-1595 | a mirror pad that does not reflect is InvalidArgument, a version above 1 Unimplemented, anything else OK |
| ModelBuilder.ParsePadAttributes | tensorflow/lite/delegates/gpu/common/model_builder.cc:1597-1623 | succeeds iff the paddings tensor is 4x2 (InvalidArgument otherwise); the tensor is row by row the before and after padding of b, h, w, c |
| ModelBuilder.PadAttributesRoundTrip | tensorflow/lite/delegates/gpu/common/model_builder.cc:1614-1621 | attributes written out as a paddings tensor parse back to themselves |
| ModelBuilder.GraphPartitionHelper.PrepareSupportedNodes | tensorflow/lite/delegates/gpu/common/model_builder.cc:2826-2857 | a missing execution plan or a failed node lookup is InvalidArgument (the latter empties the list); otherwise the supported nodes are the plan's accepted nodes in order |
| ModelBuilder.SelectedMembers | tensorflow/lite/delegates/gpu/common/model_builder.cc:2836-2852 | the supported nodes are exactly the plan's nodes that the support test accepts |
| ModelBuilder.GraphPartitionHelper.Partition | tensorflow/lite/delegates/gpu/common/model_builder.cc:2780-2797 | OK iff the plan and every lookup and the preview succeed; then the previewed partitions are appended, otherwise the partitions are unchanged |
| ModelBuilder.GraphPartitionHelper.GetFirstNLargestPartitions | tensorflow/lite/delegates/gpu/common/model_builder.cc:2802-2815 | returns the first min(n, total) partitions, sorting them by size first when n is below the total; no partition left out is larger than one returned |
| ModelBuilder.SortBySizeSorted | tensorflow/lite/delegates/gpu/common/model_builder.cc:2802-2823 | the sort leaves the partitions in non-increasing size, and (by its contract) the same partitions |
| ModelBuilder.PrefixIsLargest | tensorflow/lite/delegates/gpu/common/model_builder.cc:2802-2815 | in sorted order every partition before a cut is at least as large as every partition after it |
| ModelBuilder.GraphPartitionHelper.RemoveSingleDequantNodePartitions | tensorflow/lite/delegates/gpu/common/model_builder.cc:2981-3003 | exactly the lone DEQUANTIZE partitions are erased, in order, and their nodes are added to the saved set |
| ModelBuilder.KeptPartitionsMeans | tensorflow/lite/delegates/gpu/common/model_builder.cc:2981-3003 | a partition is kept iff it is not a lone dequantize node, and a node is saved iff it formed such a partition |
| ModelBuilder.GraphPartitionHelper.RemoveReservedDequantsFromNodes | tensorflow/lite/delegates/gpu/common/model_builder.cc:3005-3015 | the result is the nodes without the saved ones |
| ModelBuilder.WithoutMembers | tensorflow/lite/delegates/gpu/common/model_builder.cc:3005-3015 | a node survives iff it was present and is not saved |
| ModelBuilder.WithoutAppend | tensorflow/lite/delegates/gpu/common/model_builder.cc:3005-3015 | removal distributes over concatenation, so the surviving nodes keep their order |
| ModelBuilder.GraphPartitionHelper.GetNodesOfFirstNLargestPartitions | tensorflow/lite/delegates/gpu/common/model_builder.cc:2899-2914 | the nodes of the first n largest partitions, partition after partition, without the saved dequantize nodes |
| ModelBuilder.GraphPartitionHelper.PartitionWithDequant | tensorflow/lite/delegates/gpu/common/model_builder.cc:2887-2894 | the base partition status is returned and, whatever it is, lone dequantize partitions are removed and saved |
| ModelBuilder.GetOpsToReplace | tensorflow/lite/delegates/gpu/common/model_builder.cc:3086-3133 | None iff the plan has an unregistered node or partitioning fails; otherwise exactly the nodes of the largest kept partition (LargestKept), in order, less the lone dequantize nodes; each returned node lies in a previewed partition |
| ModelBuilder.LargestKeptIsLargest | tensorflow/lite/delegates/gpu/common/model_builder.cc:3106-3110 | at most one partition is kept, one exists when any does, and it is the largest of the kept partitions |
| OperatorProperty.GetOperatorVariant | tensorflow/lite/tools/optimize/operator_property.cc:34-53 | an LSTM uses projection iff input 16 is not -1 and peephole iff input 11 is not -1, and layer norm iff it has more than 20 inputs and input 21 is not -1; every other operator keeps all three flags off |
| OperatorProperty.GetOperatorProperty | tensorflow/lite/tools/optimize/operator_property.cc:56-62 | the result is the table's property of the operator's variant, and it is quantizable iff the operator code is one the table knows |
| OperatorProperty.UnknownOpNotQuantizable | tensorflow/lite/tools/optimize/operator_property.cc:910-912 | only an operator outside the table has quantizable off |
| OperatorProperty.PropertyWellFormed | tensorflow/lite/tools/optimize/operator_property.cc:62-913 | every non-LSTM entry names each input, output and intermediate once, needs a version from 1 to 4, and the unknown-operator entry is the default with quantizable off |
| OperatorProperty.ConvolutionWeights | tensorflow/lite/tools/optimize/operator_property.cc:101-135 | CONV_2D and DEPTHWISE_CONV_2D quantize inputs 0 and 1 with weights 1 symmetric per channel along axis 0, respectively 3, bias input 2 and version 3 |
| OperatorProperty.NoQuantizableOutputs | tensorflow/lite/tools/optimize/operator_property.cc:136-145 | the comparisons, ARG_MAX (line 68) and SHAPE (line 820) are quantizable with no output and no arbitrary outputs |
| OperatorProperty.LstmCommon | tensorflow/lite/tools/optimize/operator_property.cc:194-738 | every LSTM variant restricts input 18 to output 0's scale, needs version 2, quantizes output 0, has no biases and has intermediates 0 to 4 |
| OperatorProperty.LstmIndicesLayout | tensorflow/lite/tools/optimize/operator_property.cc:194-738 | an LSTM variant lists inputs 0 to 8, 12 to 15 and 19 always, 9 to 11 iff peephole, 16 and 17 iff projection, 20 to 23 iff layer norm, and nothing else |
| OperatorProperty.LstmInputsTagged | tensorflow/lite/tools/optimize/operator_property.cc:194-738 | each LSTM input is listed in the source's block order with its fixed property: defaults for weights 0 to 8 and 16, 16-bit symmetric for 9 to 11 and 20 to 23, the 16-bit cell state for 19, and 32-bit derived-scale biases for 12 to 15 and 17 |
| OperatorProperty.SvdfInputs | tensorflow/lite/tools/optimize/operator_property.cc:875-897 | SVDF quantizes inputs 0 and 1 with defaults, then the 10-bit time weights 2, the 16-bit state tensor 4 and the 32-bit bias 3 with scale derived from inputs 2 and 4; output 0; version 3 |
| OperatorProperty.LstmInputCount | tensorflow/lite/tools/optimize/operator_property.cc:194-738 | an LSTM variant has 14 inputs, plus 3 with peephole, 2 with projection and 4 with layer norm |
| WhitelistedFlexOps.InTableIffSpelled | tensorflow/lite/delegates/flex/whitelisted_flex_ops.cc:22-541 | a name is found exactly when it is a first character followed by a remainder stored under that character, so the lookup (IsWhitelistedFlexOp is InTable over the fixed table) answers yes for the listed names and for nothing else |
| WhitelistedFlexOps.AbsListed | tensorflow/lite/delegates/flex/whitelisted_flex_ops.cc:27 | "Abs" is listed |
| WhitelistedFlexOps.SendListed | tensorflow/lite/delegates/flex/whitelisted_flex_ops.cc:536 | "_Send" is listed |
| WhitelistedFlexOps.LowerCaseAbsNotListed | tensorflow/lite/delegates/flex/whitelisted_flex_ops.cc:539-540 | the lookup is case-sensitive: "abs" is not listed |
| WhitelistedFlexOps.PrefixAbNotListed | tensorflow/lite/delegates/flex/whitelisted_flex_ops.cc:539-540 | the lookup is on the whole name: "Ab", a prefix of listed names, is not listed |
| LiteUtil.StrNCmpZeroIff | tensorflow/lite/util.cc:36-39 | strncmp over n characters is 0 exactly when both C strings agree on their first n characters, up to the first NUL |
| LiteUtil.IsFlexOpIff | tensorflow/lite/util.cc:36-39 | a null custom name is never a Flex op; any other name is one exactly when it starts with "Flex" |
| LiteUtil.ConvertArrayToTfLiteIntArray | tensorflow/lite/util.cc:46-52 | a fresh array of size rank whose elements are the first rank dims, in order |
| LiteUtil.ConvertVectorToTfLiteIntArray | tensorflow/lite/util.cc:41-44 | a fresh array holding the whole vector |
| LiteUtil.EqualArrayAndTfLiteIntArray | tensorflow/lite/util.cc:54-62 | true exactly when the array is non-null, has size b_size and holds b's first b_size elements in order |
| LiteUtil.CombineHashes | tensorflow/lite/util.cc:64-72 | the result is the left fold of the 64-bit mixing step over the hashes, starting from 0 |
| LiteUtil.FoldConcat | tensorflow/lite/util.cc:64-72 | combining a concatenation continues from the combination of its first part |
| LiteUtil.CombineFewHashes | tensorflow/lite/util.cc:64-72 | no hashes give 0 and one hash gives itself plus 0x9e3779b97f4a7800, wrapping at 64 bits |
| LiteUtil.SizeOfTypeMatchesWidth | tensorflow/lite/util.cc:74-117 | the call succeeds exactly for the nine types with a fixed width, with that width in bytes (a bool takes one byte); on failure an error is reported iff a context is given |
| LiteUtil.UnsupportedTypes | tensorflow/lite/util.cc:74-117 | only the untyped and string element types fail |
| LiteUtil.OpNameParts | tensorflow/lite/util.cc:135-144 | the name is the builtin enum name, followed by a space and the custom name exactly when the op is CUSTOM or DELEGATE and has one |
| LiteUtil.UnresolvedRoundTrip | tensorflow/lite/util.cc:119-133 | the placeholder registration is recognised as unresolved and is named "CUSTOM" plus its custom op name |
| MicroReduce.ResolveAxis | tensorflow/lite/micro/kernels/reduce.cc:108-118 | afterwards the four slots hold the first axis_count axes narrowed to int16, then 1 in every remaining slot, and axis_count is recorded |
| MicroReduce.ResolvedAxesAt | tensorflow/lite/micro/kernels/reduce.cc:108-118 | slot i holds the i-th axis below axis_count and 1 from axis_count up to 4 |
| MicroReduce.EvalMean | tensorflow/lite/micro/kernels/reduce.cc:120-180 | Mean succeeds exactly for a float32 4-D input whose axis tensor gives exactly two axes, 1 and 2 in either order, and (without keep_dims) a successful reference Mean; an axis tensor with null dims counts as one axis |
| MicroReduce.MeanAxesAreHeightAndWidth | tensorflow/lite/micro/kernels/reduce.cc:139-177 | an accepted Mean has element type float32, rank 4 and the axis multiset {1, 2}; every other element type fails |
| MicroReduce.NullAxisDimsRejectedByMean | tensorflow/lite/micro/kernels/reduce.cc:127-133 | null axis dims count as one axis, so Mean rejects them |
| MicroReduce.PrepareSimple | tensorflow/lite/micro/kernels/reduce.cc:51-78 | Prepare succeeds iff there are 2 inputs, 1 output and an int32 axis; for an int8 input it stores the quantized multiplier and shift of input scale over output scale, and otherwise changes nothing |
| MicroReduce.PrepareMeanOrSum | tensorflow/lite/micro/kernels/reduce.cc:102-106 | succeeds exactly when PrepareSimple's checks pass; on success with int8 input it stores the quantized multiplier and shift of the input over the output scale and keeps the buffer indices; otherwise it changes nothing |
| MicroReduce.PrepareMax | tensorflow/lite/micro/kernels/reduce.cc:80-100 | succeeds exactly when the Prepare checks pass; then requests one scratch buffer of 4 bytes per input dimension and one of 4 bytes per axis (one axis for null dims), records their indices, and for int8 input stores the quantized multiplier and shift; on failure data and arena are unchanged |
| MicroReduce.ReduceMaxIsMaximum | tensorflow/lite/micro/kernels/reduce.cc:233-237 | the max reduction from an initial value is at least the initial value and every element, and is one of them |
| MicroReduce.Int8ReduceMaxIsLargestElement | tensorflow/lite/micro/kernels/reduce.cc:233-237 | from int8's lowest value, a non-empty run of int8 values reduces to its largest element |
| MicroReduce.RescaleInt8Output | tensorflow/lite/micro/kernels/reduce.cc:216-223 | every output element becomes its rescaled value clamped to [-128, 127] |
| MicroReduce.ClampToInt8 | tensorflow/lite/micro/kernels/reduce.cc:218-222 | the clamp lands in [-128, 127] and keeps values already in range |
| MicroReduce.EvalLogic | tensorflow/lite/micro/kernels/reduce.cc:182-226 | fails iff the input and output types differ or the reference reduction fails; the rescale runs only for int8 with differing scales, and the output is untouched otherwise |
| MicroReduce.EvalMax | tensorflow/lite/micro/kernels/reduce.cc:228-260 | REDUCE_MAX succeeds exactly for int8 or float32 inputs of the output's type whose reduction succeeds |
| MicroReduce.Int16 | tensorflow/lite/micro/kernels/reduce.cc:112 | static_cast<int16_t> lands in the int16 range, is congruent modulo 2^16 and keeps values already in range |
| MicroReduce.ResolveAxisSlotsCount | tensorflow/lite/micro/kernels/reduce.cc:108-118 | the two loops as written write slots 0, 1, ... in order, SlotsWritten (the larger of the count and 4) of them |
| MicroReduce.ResolveAxisInBounds | tensorflow/lite/micro/kernels/reduce.cc:108-118 | the loops as written stay inside the four-slot axis array exactly when there are at most four axes |
| MicroReduce.FiveAxesOverflow | tensorflow/lite/micro/kernels/reduce.cc:108-118 | with five axes the loops as written write slot 4, a fifth slot of the four-slot axis array |
| BatchMatMul.ExtendedShapeKeepsDims | tensorflow/lite/kernels/internal/optimized/batch_matmul.h:35-38 | the rank-5 extension ends with the original dims, pads the front with 1s and keeps the element count |
| BatchMatMul.BroadcastDimIsCommon | tensorflow/lite/kernels/internal/optimized/batch_matmul.h:41-46 | each side is the broadcast dimension or 1, and for positive dims it is the larger of the two |
| BatchMatMul.Extent | tensorflow/lite/kernels/internal/optimized/batch_matmul.h:50-59 | the extent of dimension x is 0 for a size-1 dimension and otherwise the product of all later dimensions |
| BatchMatMul.ExtentIsStride | tensorflow/lite/kernels/internal/optimized/batch_matmul.h:50-59 | for a dimension that is not 1, extent times its size is the element count from that dimension on (the row-major stride) |
| BatchMatMul.BatchMatMul | tensorflow/lite/kernels/internal/optimized/batch_matmul.h:28-113 | LHS is rows x depth row-major from dims 3 and 4, RHS depth x cols and the output rows x cols column-major; the GEMM calls are those of the three nested batch loops in order |
| BatchMatMul.AppendRow | tensorflow/lite/kernels/internal/optimized/batch_matmul.h:101-110 | the innermost loop appends the call of every b2 below batch_dim2 in order |
| BatchMatMul.AppendBatch | tensorflow/lite/kernels/internal/optimized/batch_matmul.h:98-111 | the middle loop appends the calls of every b1 below batch_dim1 in order |
| BatchMatMul.CallsPerTriple | tensorflow/lite/kernels/internal/optimized/batch_matmul.h:95-112 | there are d0 * d1 * d2 calls, and the call of batch triple (b0, b1, b2) is the one at position (b0 * d1 + b1) * d2 + b2 |
| BatchMatMul.BlockIndexInjective | tensorflow/lite/kernels/internal/optimized/batch_matmul.h:104-106 | distinct in-range batch triples have distinct block indices, all below d0 * d1 * d2 |
| BatchMatMul.OutOffsetIsBlock | tensorflow/lite/kernels/internal/optimized/batch_matmul.h:104-106 | the output pointer ((b0 * d1 * d2) + b1 * d2 + b2) * rows * cols is the block index times rows * cols |
| BatchMatMul.OutputBlocksDisjoint | tensorflow/lite/kernels/internal/optimized/batch_matmul.h:95-106 | the rows x cols output blocks of distinct in-range batch triples do not overlap and all lie in the first d0 * d1 * d2 * rows * cols elements |
| BatchMatMul.GemmOperandsInBounds | tensorflow/lite/kernels/internal/optimized/batch_matmul.h:95-103 | for non-negative shapes, the LHS and RHS matrices read by any in-range batch triple lie inside their buffers, broadcast dims not advancing the pointer |
| BatchMatMul.BroadcastDoesNotAdvance | tensorflow/lite/kernels/internal/optimized/batch_matmul.h:52-54 | a size-1 batch dimension of the LHS has extent 0 |
| InferenceContext.DummyEqualsIsIdentity | tensorflow/lite/delegates/gpu/cl/inference_context.h:148-150 | DummyTensor equality holds exactly when shape and descriptor are equal, i.e. for identical dummies; it is reflexive and symmetric |
| InferenceContext.DummyEqualsTransitive | tensorflow/lite/delegates/gpu/cl/inference_context.h:148-150 | DummyTensor equality is transitive |
| InferenceContext.StepEffect | tensorflow/lite/delegates/gpu/cl/inference_context.h:155-162 | a store puts its dummy under its target id and keeps every other id; Add(dummy) advances the counter by one modulo 2^32, Add(id, dummy) keeps it and SetNext sets it exactly |
| InferenceContext.GetReturnsLastStored | tensorflow/lite/delegates/gpu/cl/inference_context.h:155-163 | after any run of calls, Get(id) returns the dummy of the last call that stored under id |
| InferenceContext.GetKeepsStored | tensorflow/lite/delegates/gpu/cl/inference_context.h:163 | Get keeps the counter and every stored dummy, and adds the id (with the default dummy when it was missing) |
| InferenceContext.SuccIsMod | tensorflow/lite/delegates/gpu/cl/inference_context.h:157 | next_++ on a uint32 id is +1 modulo 2^32 |
| InferenceContext.IdAfterIsMod | tensorflow/lite/delegates/gpu/cl/inference_context.h:155-158 | k calls Add(dummy) move the counter to (counter + k) mod 2^32 |
| InferenceContext.ConsecutiveIdsDistinct | tensorflow/lite/delegates/gpu/cl/inference_context.h:155-158 | fewer than 2^32 calls Add(dummy) never hand out the same id twice |
| InferenceContext.AddsTargets | tensorflow/lite/delegates/gpu/cl/inference_context.h:155-158 | the j-th of a run of Add(dummy) calls stores under the id j increments after the counter, and the run leaves the counter advanced by its length |
| InferenceContext.AddsReserveConsecutive | tensorflow/lite/delegates/gpu/cl/inference_context.h:155-163 | after at most 2^32 calls Add(dummy), Get of the id the i-th call returned gives the i-th dummy |
| InferenceContext.LaterAddsMiss | tensorflow/lite/delegates/gpu/cl/inference_context.h:155-158 | within at most 2^32 calls Add(dummy), no later call stores under the id of an earlier one |
| InferenceContext.TensorReserver.Add | tensorflow/lite/delegates/gpu/cl/inference_context.h:155-158 | stores the dummy under the counter, returns the counter and advances it by one modulo 2^32 |
| InferenceContext.TensorReserver.AddWithId | tensorflow/lite/delegates/gpu/cl/inference_context.h:159-161 | stores the dummy under id and leaves the counter unchanged |
| InferenceContext.TensorReserver.SetNext | tensorflow/lite/delegates/gpu/cl/inference_context.h:162 | sets the counter exactly and leaves the reservations unchanged |
| InferenceContext.TensorReserver.Get | tensorflow/lite/delegates/gpu/cl/inference_context.h:163 | returns the stored dummy, inserting and returning the default dummy for a missing id |
| SimpleMemoryAllocator.AlignUp | tensorflow/lite/micro/simple_memory_allocator.h:56-64 | the aligned address is a multiple of the alignment, at or above the pointer and less than one alignment above it |
| SimpleMemoryAllocator.AlignDown | tensorflow/lite/micro/simple_memory_allocator.h:52-54 | the aligned address is a multiple of the alignment, at or below the pointer and less than one alignment below it |
| SimpleMemoryAllocator.CallsKeepValid | tensorflow/lite/micro/simple_memory_allocator.h:45-68 | every call keeps the buffer start at or below the head, the head at or below both the temporary pointer and the tail, and the tail at or below the buffer end |
| SimpleMemoryAllocator.HeadNeverOverlapsTail | tensorflow/lite/micro/simple_memory_allocator.h:45-48 | a successful AdjustHead returns the aligned buffer start, moves the head watermark up to size bytes past it, never into the tail memory, and restarts the temporary chain there |
| SimpleMemoryAllocator.AdjustHeadNeedsReset | tensorflow/lite/micro/simple_memory_allocator.h:48-51 | AdjustHead fails and changes nothing while a temporary chain is open, and after ResetTempAllocations it succeeds exactly when the head fits below the tail |
| SimpleMemoryAllocator.TailAllocatesDownward | tensorflow/lite/micro/simple_memory_allocator.h:52-54 | AllocateFromTail takes the aligned block just below the current tail, at or above the head, and makes it the new tail; it fails, changing nothing, exactly when the block would cross the head |
| SimpleMemoryAllocator.TempKeepsHead | tensorflow/lite/micro/simple_memory_allocator.h:56-59 | AllocateTemp changes neither the head position nor the head used size nor the tail |
| SimpleMemoryAllocator.TempRunChain | tensorflow/lite/micro/simple_memory_allocator.h:56-64 | a run of AllocateTemp calls keeps head, tail and layout; its blocks are disjoint, in call order, start at or above the chain start and end below the tail; resetting afterwards is the same as resetting before |
| SimpleMemoryAllocator.ResetReturnsToHead | tensorflow/lite/micro/simple_memory_allocator.h:66-68 | ResetTempAllocations moves the temporary pointer back to the current head and leaves head and tail alone |
| SimpleMemoryAllocator.UsageAddsUp | tensorflow/lite/micro/simple_memory_allocator.h:74-78 | the used bytes are head plus tail usage, and with the available memory they make up the buffer size; all are non-negative |
| SimpleMemoryAllocator.SimpleMemoryAllocator.constructor | tensorflow/lite/micro/simple_memory_allocator.h:34-35 | a fresh allocator over [head, tail) has nothing allocated |
| SimpleMemoryAllocator.SimpleMemoryAllocator.FromSize | tensorflow/lite/micro/simple_memory_allocator.h:36-43 | the allocator over a buffer and size (and Create) has nothing allocated over [buffer, buffer + size) |
| SimpleMemoryAllocator.SimpleMemoryAllocator.AdjustHeadOf | tensorflow/lite/micro/simple_memory_allocator.h:45-51 | the allocator's AdjustHead does exactly what AdjustHead does to the arena |
| SimpleMemoryAllocator.SimpleMemoryAllocator.AllocateFromTailOf | tensorflow/lite/micro/simple_memory_allocator.h:52-54 | the allocator's AllocateFromTail does exactly what AllocateFromTail does to the arena |
| SimpleMemoryAllocator.SimpleMemoryAllocator.AllocateTempOf | tensorflow/lite/micro/simple_memory_allocator.h:56-64 | the allocator's AllocateTemp does exactly what AllocateTemp does to the arena |
| SimpleMemoryAllocator.SimpleMemoryAllocator.ResetTempAllocationsOf | tensorflow/lite/micro/simple_memory_allocator.h:66-68 | the allocator's ResetTempAllocations does exactly what ResetTempAllocations does to the arena |
| GpuDelegate.ToPriorityInvertsValue | tensorflow/lite/delegates/gpu/delegate.cc:41-53 | ToPriority maps each of the four priority constants to its priority and every other integer to UNKNOWN (both directions) |
| GpuDelegate.ToUsageInvertsValue | tensorflow/lite/delegates/gpu/delegate.cc:55-63 | ToUsage maps the two preference constants to their usages and every other integer to UNKNOWN (both directions) |
| GpuDelegate.DefaultOptions | tensorflow/lite/delegates/gpu/delegate.cc:334-344 | the default options leave precision loss undecided (-1), prefer a fast single answer and rank max precision, auto, auto |
| GpuDelegate.DelegateOptions | tensorflow/lite/delegates/gpu/delegate.cc:70-72 | a Delegate keeps a copy of the given options, or the defaults when none are given |
| GpuDelegate.PrecisionLossPrecedence | tensorflow/lite/delegates/gpu/delegate.cc:210-224 | for OpenCL an explicit precision-loss flag overrides the priorities: 0 gives max precision, any other value min latency, and only -1 uses the three priorities; the usage always follows the preference |
| GpuDelegate.DefaultsAgree | tensorflow/lite/delegates/gpu/delegate.cc:334-344 | under the default options OpenCL and OpenGL are built with the same inference options: fast single answer, max precision, auto, auto |
| GpuDelegate.FirstError | tensorflow/lite/delegates/gpu/delegate.cc:175-185 | the status of a chain of early-returning calls is Ok exactly when every call is Ok, and otherwise one of the calls' failures |
| GpuDelegate.FirstErrorAt | tensorflow/lite/delegates/gpu/delegate.cc:175-185 | that failure is the one at the first failing position |
| GpuDelegate.DelegateKernel.SetInputsAndOutputs | tensorflow/lite/delegates/gpu/delegate.cc:175-185 | binding stops at the first failing input or output binding and returns its status, or Ok when all succeed |
| GpuDelegate.DelegateKernel.Invoke | tensorflow/lite/delegates/gpu/delegate.cc:159-172 | a call from a thread other than Prepare's fails with FailedPrecondition only when same-thread use is enforced; otherwise the binding failure, or the runner's status |
| GpuDelegate.DelegateKernel.Prepare | tensorflow/lite/delegates/gpu/delegate.cc:96-157 | a failed graph build, rebuild or OpenGL fallback returns that failure and records nothing; otherwise the input and output tensor indices are appended in order, and the OpenGL fallback, and only it, turns on same-thread enforcement |
| GpuDelegate.DelegateKernel.constructor | tensorflow/lite/delegates/gpu/delegate.cc:93-94 | a new kernel keeps the delegate's options and has no recorded tensors and no same-thread enforcement |
| HexagonDelegateKernel.StateToString | tensorflow/lite/experimental/delegates/hexagon/hexagon_delegate_kernel.cc:30-50 | every kernel state has a non-empty name |
| HexagonDelegateKernel.StateOfNameInverts | tensorflow/lite/experimental/delegates/hexagon/hexagon_delegate_kernel.cc:30-50 | the name of a state gives that state back |
| HexagonDelegateKernel.StateNamesDistinct | tensorflow/lite/experimental/delegates/hexagon/hexagon_delegate_kernel.cc:30-50 | two states have the same name exactly when they are the same state |
| HexagonDelegateKernel.BitOrDisjoint | tensorflow/lite/experimental/delegates/hexagon/hexagon_delegate_kernel.cc:54-59 | or-ing a value below 2^k into a multiple of 2^k is the same as adding it |
| HexagonDelegateKernel.GetCyclesValue | tensorflow/lite/experimental/delegates/hexagon/hexagon_delegate_kernel.cc:54-59 | the cycle count, counter_hi shifted left by 32 and or-ed with counter_lo, equals counter_hi * 2^32 + counter_lo and fits in 64 bits |
| HexagonDelegateKernel.CyclesDetermineCounters | tensorflow/lite/experimental/delegates/hexagon/hexagon_delegate_kernel.cc:54-59 | two records have the same cycle count exactly when both counters agree |
| HexagonDelegateKernel.PerfInfoCmpByCounters | tensorflow/lite/experimental/delegates/hexagon/hexagon_delegate_kernel.cc:61-68 | one record sorts before another exactly when its cycle count is strictly larger, which compares the high counters and then the low ones |
| HexagonDelegateKernel.PerfInfoCmpStrictWeakOrder | tensorflow/lite/experimental/delegates/hexagon/hexagon_delegate_kernel.cc:61-68 | the comparator is irreflexive, asymmetric and transitive, and records with equal cycle counts are ordered alike against every other record |
| HexagonDelegateKernel.RuntimeIndicesMembers | tensorflow/lite/experimental/delegates/hexagon/hexagon_delegate_kernel.cc:139-160 | the tensors passed to the graph at run time are exactly the listed ones that are neither optional nor constant |
| HexagonDelegateKernel.DefsOfRuntime | tensorflow/lite/experimental/delegates/hexagon/hexagon_delegate_kernel.cc:151-179 | Invoke fills one tensor definition per run-time tensor, in order, with that tensor's byte size |
| HexagonDelegateKernel.CollectDefs | tensorflow/lite/experimental/delegates/hexagon/hexagon_delegate_kernel.cc:139-180 | a tensor loop of Invoke succeeds exactly when no run-time tensor has rank above 4, and then yields the definitions of the run-time tensors |
| HexagonDelegateKernel.PrepareCheckMatchesInvoke | tensorflow/lite/experimental/delegates/hexagon/hexagon_delegate_kernel.cc:214-233 | Prepare's check over the inputs followed by the outputs accepts exactly when both of Invoke's checks do |
| HexagonDelegateKernel.HexagonDelegateKernel.Init | tensorflow/lite/experimental/delegates/hexagon/hexagon_delegate_kernel.cc:79-129 | without the interface Init fails; otherwise it takes the delegate's options or the defaults, fails on a configure, init, debug-level or powersave error, sets FAILED_TO_INIT_GRAPH only on an init error, and on success records the nodes to replace in order and returns the graph build's status |
| HexagonDelegateKernel.HexagonDelegateKernel.Invoke | tensorflow/lite/experimental/delegates/hexagon/hexagon_delegate_kernel.cc:131-199 | without the interface Invoke fails; a run-time input or output of rank above 4 fails with INPUT_RANK_NOT_SUPPORTED; otherwise the graph runs on the run-time tensors' definitions and an execution error fails with FAILED_TO_EXECUTE_GRAPH |
| HexagonDelegateKernel.HexagonDelegateKernel.Prepare | tensorflow/lite/experimental/delegates/hexagon/hexagon_delegate_kernel.cc:201-240 | without the interface Prepare fails; a failed graph preparation sets FAILED_TO_PREPARE_GRAPH; otherwise it succeeds exactly when no run-time input or output has rank above 4 |
| Dlpack.GetDLDataType | tensorflow/c/eager/dlpack.cc:73-106 | an export type is accepted exactly when DLPack has a code for it, with one lane of 8 * element size bits; every other type is InvalidArgument |
| Dlpack.DataTypeRoundTrip | tensorflow/c/eager/dlpack.cc:73-106 | exporting then importing a data type gives the type back, except that TF_BOOL comes back as TF_UINT8 |
| Dlpack.DlDataTypeRoundTrip | tensorflow/c/eager/dlpack.cc:186-260 | an imported (code, bits) pair is accepted exactly for unsigned and signed integers of 8, 16, 32 or 64 bits, floats of 16, 32 or 64 and bfloat of 16, otherwise InvalidArgument, and re-exporting an accepted pair gives the same code and bits with one lane |
| Dlpack.GetDLContext | tensorflow/c/eager/dlpack.cc:108-130 | CPU and GPU devices are accepted with the parsed id, or -1 without one; any other device type is InvalidArgument |
| Dlpack.DeviceNames | tensorflow/c/eager/dlpack.cc:175-185 | only CPU and GPU contexts have a device name; CPU is always CPU:0, GPU contexts are named apart exactly when their ids differ and never like the CPU |
| Dlpack.ProductSuffix | tensorflow/c/eager/dlpack.cc:157-159 | the number of elements after a dimension is the next dimension times the number after that |
| Dlpack.RowMajorStridesExact | tensorflow/c/eager/dlpack.cc:150-159 | the compact row-major strides are exactly the strides that end in 1 and in which each stride is the next dimension times the next stride |
| Dlpack.ChainedFromEnd | tensorflow/c/eager/dlpack.cc:157-159 | chained strides are determined by their last stride |
| Dlpack.ExportStrides | tensorflow/c/eager/dlpack.cc:150-159 | the exported strides are the compact row-major strides of the shape: each is the product of the dimensions after it |
| Dlpack.IsValidStrideCompactRowMajorData | tensorflow/c/eager/dlpack.cc:267-275 | the stride check as written accepts exactly the strides in which each is the next dimension times the next stride |
| Dlpack.ChainedIsScaledRowMajor | tensorflow/c/eager/dlpack.cc:267-275 | the strides the check as written accepts are the compact strides scaled by the last stride |
| Dlpack.StrideCheckAcceptsNonCompact | tensorflow/c/eager/dlpack.cc:267-275 | the check as written accepts the non-compact strides [6, 2] for the shape [2, 3] |
| Dlpack.IsCompactRowMajorData | tensorflow/c/eager/dlpack.cc:267-275 | the corrected check accepts exactly the compact row-major strides |
| Dlpack.HandleToDLPack | tensorflow/c/eager/dlpack.cc:132-173 | an exported tensor has the handle's device context, dimension count, data type and dimensions, the compact row-major strides and byte offset 0; an unsupported device or type leaves InvalidArgument |
| Dlpack.TotalBytes | tensorflow/c/eager/dlpack.cc:307-310 | the imported byte size is bits / 8 times the product of the dimensions |
| Dlpack.HandleFromDLPack | tensorflow/c/eager/dlpack.cc:290-325 | an import fails with InvalidArgument for a device without a name, an unsupported type or strides that are not the compact row-major ones (the corrected stride check, see Findings), and otherwise asks for a handle on the named device with the converted type, the shape and the total byte size |
| Dlpack.ExportImportRoundTrip | tensorflow/c/eager/dlpack.cc:132-325 | a handle exported without error imports back on CPU:0 or GPU:<id> with the same dimensions, the same type (bool as uint8) and its element size times its element count as the byte size |
| Gradients.LookupIn | tensorflow/c/eager/gradients.cc:36-46 | a lookup fails with NotFound exactly when no factory is registered under the operation's name |
| Gradients.RegisterThenLookup | tensorflow/c/eager/gradients.cc:26-46 | registering a new name succeeds and a lookup then builds the function from that factory; registering the name again is AlreadyExists and keeps the registry as it was |
| Gradients.RegisterKeepsOthers | tensorflow/c/eager/gradients.cc:26-35 | registering one name does not change the lookup of any other |
| Gradients.FirstRegistrationWins | tensorflow/c/eager/gradients.cc:26-35 | after a sequence of registrations, a name that was new keeps the factory of its first registration |
| Gradients.KeptThrough | tensorflow/c/eager/gradients.cc:28-32 | a registered name keeps its factory through any later registrations |
| Gradients.GradientRegistry.Register | tensorflow/c/eager/gradients.cc:26-35 | the registry's Register adds a new name with its factory and Ok, and leaves the registry unchanged with AlreadyExists for a known name |
| Gradients.GradientRegistry.constructor | tensorflow/c/eager/gradients.cc:26-35 | a new registry is empty |
| Gradients.AggregateGradients | tensorflow/c/eager/gradients.cc:135-158 | a single gradient is returned unchanged; any other number goes to AddN and gives its result, or null on failure |
| Gradients.ShapeProtoOf | tensorflow/c/eager/gradients.cc:247-254 | a negative dimension count gives an unknown-rank shape, any other count the first that many dimensions in order |
| Gradients.ShapeProtoKeepsShape | tensorflow/c/eager/gradients.cc:247-254 | the shape proto keeps the count as its rank (-1 for unknown) and every dimension |
| Gradients.BuildShapeProto | tensorflow/c/eager/gradients.cc:247-254 | the dimension loop builds exactly that shape proto |
| Gradients.ShapeProtosOfAppend | tensorflow/c/eager/gradients.cc:324-343 | the shape list built so far grows by one element's proto per step |
| Gradients.ForwardOperation.constructor | tensorflow/c/eager/gradients.cc:191-195 | a new forward operation has no name, inputs or attributes |
| Gradients.ForwardOperation.Reset | tensorflow/c/eager/gradients.cc:191-195 | the name is recorded whatever the operation's Reset returns, and the status is that of Reset |
| Gradients.ForwardOperation.AddInput | tensorflow/c/eager/gradients.cc:196-201 | the input is recorded only when the operation accepted it |
| Gradients.ForwardOperation.AddInputList | tensorflow/c/eager/gradients.cc:202-210 | the whole list is recorded in order when the operation accepted it, and nothing otherwise |
| Gradients.ForwardOperation.SetAttr | tensorflow/c/eager/gradients.cc:212-237 | a scalar or list attribute is recorded, whatever the operation's setter then returns |
| Gradients.ForwardOperation.SetAttrShape | tensorflow/c/eager/gradients.cc:238-258 | more than MaxDimensions dimensions is InvalidArgument and records nothing; otherwise the shape proto is recorded and the operation's setter gives the status |
| Gradients.ForwardOperation.SetAttrShapeList | tensorflow/c/eager/gradients.cc:321-347 | a list with any element over MaxDimensions is InvalidArgument and records nothing; otherwise the list of the elements' shape protos is recorded |
| Gradients.ForwardOperation.SetAttrUnimplemented | tensorflow/c/eager/gradients.cc:259-277 | function, function-name and tensor attributes are Unimplemented |
| Tridiagonal.CheckSecondToLastDimension | tensorflow/compiler/xla/client/lib/tridiagonal.cc:41-52 | the check passes exactly when the second-to-last dimension has the expected size, and is InvalidArgument otherwise |
| Tridiagonal.CheckSystemAndReturnShape | tensorflow/compiler/xla/client/lib/tridiagonal.cc:54-115 | a system is accepted exactly when the four operands have equal rank of at least 2, equal innermost dimensions, and a second-to-last dimension of 1 on each diagonal; it then has that rank and the innermost dimension as the number of equations; every rejection is InvalidArgument |
| Tridiagonal.RhsSecondToLastExempt | tensorflow/compiler/xla/client/lib/tridiagonal.cc:105-110 | the right-hand side's second-to-last dimension never changes the outcome of the check |
| Tridiagonal.SliceShape | tensorflow/compiler/xla/client/lib/tridiagonal.cc:199-207 | a slice of one dimension narrows that dimension to the slice's length |
| Tridiagonal.Unpack | tensorflow/compiler/xla/client/lib/tridiagonal.cc:199-207 | the packed form has its upper, main and lower diagonals in rows 0, 1 and 2, and needs at least three rows |
| Tridiagonal.UnpackThenStack | tensorflow/compiler/xla/client/lib/tridiagonal.cc:199-207 | stacking the three sliced diagonals of a three-row system gives the packed system back |
| Tridiagonal.TransposeOrder | tensorflow/compiler/xla/client/lib/tridiagonal.cc:209-213 | the transpose order is the identity except that the last two dimensions are swapped |
| Tridiagonal.TransposeOrderInvolution | tensorflow/compiler/xla/client/lib/tridiagonal.cc:209-219 | the transpose order is its own inverse: transposing twice gives the shape back, and once swaps exactly the last two dimensions |
| Tridiagonal.TransposeOrderWrites | tensorflow/compiler/xla/client/lib/tridiagonal.cc:210-213 | the transpose order is written at entries rank - 2 and rank - 1 |
| Tridiagonal.RankOneWritesOutOfBounds | tensorflow/compiler/xla/client/lib/tridiagonal.cc:210-213 | for diagonals of rank 1 one of those entries, -1, lies outside the vector |
| Tridiagonal.TransposeOrderWritesInBounds | tensorflow/compiler/xla/client/lib/tridiagonal.cc:209-213 | both writes land inside the vector of rank entries exactly when the rank is at least 2 |
| Tridiagonal.PackedShapeAccepted | tensorflow/compiler/xla/client/lib/tridiagonal.cc:194-220 | the packed solver accepts exactly diagonals [..., at least 3, n] with a right-hand side [..., n, k] of the same rank, solving n equations; everything else is InvalidArgument |
| S3Filesystem.StatusFromAwsError | tensorflow/c/experimental/filesystem/plugins/s3/s3_filesystem.cc:44-61 | FORBIDDEN becomes FAILED_PRECONDITION, REQUESTED_RANGE_NOT_SATISFIABLE becomes OUT_OF_RANGE, and every other response UNKNOWN with the exception name and message joined by ": "; the status is never OK |
| S3Filesystem.Find | tensorflow/c/experimental/filesystem/plugins/s3/s3_filesystem.cc:66-73 | the position found is the first occurrence at or after the start position, and no occurrence means there is none |
| S3Filesystem.SchemeTest | tensorflow/c/experimental/filesystem/plugins/s3/s3_filesystem.cc:66-71 | the comparison of the text up to just after the first "://" with "s3://" passes exactly when the path starts with "s3://", also when "://" is missing and the size_t sum wraps to 1; the scheme then ends at position 4 |
| S3Filesystem.ParseS3Path | tensorflow/c/experimental/filesystem/plugins/s3/s3_filesystem.cc:63-87 | the status is either the one given or INVALID_ARGUMENT |
| S3Filesystem.ParseS3PathRejects | tensorflow/c/experimental/filesystem/plugins/s3/s3_filesystem.cc:66-78 | a path without the "s3://" prefix, or with no '/' after the bucket, is INVALID_ARGUMENT and leaves bucket and object as they were |
| S3Filesystem.ParseS3PathSplitsAt | tensorflow/c/experimental/filesystem/plugins/s3/s3_filesystem.cc:80-86 | the bucket is the text between "s3://" and the first '/' after it, the object is everything after that '/', and an empty object is INVALID_ARGUMENT unless it is allowed |
| S3Filesystem.ParseJoinedPath | tensorflow/c/experimental/filesystem/plugins/s3/s3_filesystem.cc:63-87 | parsing s3://bucket/object for a bucket without '/' gives back that bucket and object, with an error only for an empty object that is not allowed |
| S3Filesystem.ParseSplitsPath | tensorflow/c/experimental/filesystem/plugins/s3/s3_filesystem.cc:63-87 | every path that passes both checks is s3://bucket/object for the parts returned, and the bucket holds no '/' |
| S3Filesystem.SimpleAtoiI64 | tensorflow/c/experimental/filesystem/plugins/s3/s3_filesystem.cc:146-154 | a parsed int64 value lies in the int64 range |
| S3Filesystem.SimpleAtoiDecimal | tensorflow/c/experimental/filesystem/plugins/s3/s3_filesystem.cc:317-329 | the decimal text of every uint64 value parses back to it (and to the same int64 value when below 2^63); a missing or blank variable does not parse |
| S3Filesystem.SimpleAtoiPadded | tensorflow/c/experimental/filesystem/plugins/s3/s3_filesystem.cc:317-329 | digits with any leading zeros, an optional plus sign and surrounding ASCII white space parse to their value when it fits in 64 bits |
| S3Filesystem.UseMultiPartDownload | tensorflow/c/experimental/filesystem/plugins/s3/s3_filesystem.cc:326-329 | multi-part download is off exactly when S3_DISABLE_MULTI_PART_DOWNLOAD parses to 1 |
| S3Filesystem.DisablingSpellings | tensorflow/c/experimental/filesystem/plugins/s3/s3_filesystem.cc:326-329 | so every padded, signed or zero-filled spelling of 1 switches it off |
| S3Filesystem.NonDisablingSpellings | tensorflow/c/experimental/filesystem/plugins/s3/s3_filesystem.cc:326-329 | a missing variable, "0", "-1" and "true" leave it on |
| S3Filesystem.Region | tensorflow/c/experimental/filesystem/plugins/s3/s3_filesystem.cc:99-129 | AWS_REGION wins over S3_REGION, which wins over the default profile; the region differs from the SDK default only when one of them is set or AWS_SDK_LOAD_CONFIG is "true" or "1" in any case |
| S3Filesystem.FlagFromEnv | tensorflow/c/experimental/filesystem/plugins/s3/s3_filesystem.cc:130-143 | a set S3_USE_HTTPS or S3_VERIFY_SSL is false exactly when its text starts with '0'; an unset one keeps the default |
| S3Filesystem.TimeoutFromEnv | tensorflow/c/experimental/filesystem/plugins/s3/s3_filesystem.cc:144-154 | a timeout variable that parses as an int64 is used, otherwise the timeout is 300000 ms |
| S3Filesystem.DefaultClientConfig | tensorflow/c/experimental/filesystem/plugins/s3/s3_filesystem.cc:89-162 | the endpoint, region, scheme and SSL verification are taken from their variables as stated, over the SDK defaults |
| S3Filesystem.EmptyEnvironmentConfig | tensorflow/c/experimental/filesystem/plugins/s3/s3_filesystem.cc:89-162 | with no variable set the configuration is the SDK default with both timeouts at five minutes |
| S3Filesystem.TransferConfigFor | tensorflow/c/experimental/filesystem/plugins/s3/s3_filesystem.cc:214-219 | a transfer manager buffers one chunk and its heap is pool size + 1 chunks in uint64 arithmetic |
| S3Filesystem.HeapHoldsPool | tensorflow/c/experimental/filesystem/plugins/s3/s3_filesystem.cc:216-219 | the heap holds more than a full pool of chunks whenever the product does not overflow, and a chunk of 2^63 wraps it to 0 |
| S3Filesystem.FirstTransferManagerRelocks | tensorflow/c/experimental/filesystem/plugins/s3/s3_filesystem.cc:206-213 | the first GetTransferManager of a direction locks the initialisation mutex again while holding it |
| S3Filesystem.TransferManagerNeverRelocks | tensorflow/c/experimental/filesystem/plugins/s3/s3_filesystem.cc:164-223 | obtaining the client and the executor before taking the mutex never locks it twice |
| S3Filesystem.RangeHeaderParses | tensorflow/c/experimental/filesystem/plugins/s3/s3_filesystem.cc:253-255 | the Range header names the bytes from offset to offset + n - 1 as computed modulo 2^64 |
| S3Filesystem.RequestAsWrittenMisses | tensorflow/c/experimental/filesystem/plugins/s3/s3_filesystem.cc:251-255 | the request as written asks for the object named like the bucket, and for n = 0 the range runs to offset - 1, or to 2^64 - 1 at offset 0 |
| S3Filesystem.RequestTargetsFile | tensorflow/c/experimental/filesystem/plugins/s3/s3_filesystem.cc:249-255 | a request is made exactly for n > 0, for the file's bucket and object, and below 2^64 it names exactly the n bytes from offset |
| S3Filesystem.ReadResultCases | tensorflow/c/experimental/filesystem/plugins/s3/s3_filesystem.cc:259-271 | -1 exactly for errors other than an unsatisfiable range; otherwise the bytes received are returned, with OUT_OF_RANGE exactly when fewer than n arrived or the range was unsatisfiable, and OK otherwise |
| S3Filesystem.ReadS3Client | tensorflow/c/experimental/filesystem/plugins/s3/s3_filesystem.cc:249-272 | the request sent, the count and status of ReadResult, and the body copied to the front of the buffer with the rest unchanged |
| S3Filesystem.Read | tensorflow/c/experimental/filesystem/plugins/s3/s3_filesystem.cc:280-287 | with multi-part download on, the read returns -1 and leaves the status and buffer as they were; otherwise it issues the ranged request, a zero-length read returns 0 with OK and leaves the buffer, and a longer read returns ReadResult, writes the fetched body at the front and leaves the rest of the buffer |
| S3Filesystem.S3File.constructor | tensorflow/c/experimental/filesystem/plugins/s3/s3_filesystem.cc:310-333 | no client, executor or transfer manager yet, chunk sizes from their variables or 50 MB, and the multi-part download rule |
| S3Filesystem.S3File.GetS3Client | tensorflow/c/experimental/filesystem/plugins/s3/s3_filesystem.cc:164-194 | the client exists afterwards and nothing else changes |
| S3Filesystem.S3File.GetExecutor | tensorflow/c/experimental/filesystem/plugins/s3/s3_filesystem.cc:196-204 | the executor exists afterwards and nothing else changes |
| S3Filesystem.S3File.GetTransferManager | tensorflow/c/experimental/filesystem/plugins/s3/s3_filesystem.cc:206-223 | the manager of the direction is created once with that direction's chunk size, the client and executor exist, and an existing manager is kept |
| S3Filesystem.S3File.NewRandomAccessFile | tensorflow/c/experimental/filesystem/plugins/s3/s3_filesystem.cc:344-358 | a path that fails to parse (an empty object refused) reports the parse status and changes nothing; otherwise the download manager exists and the file holds the bucket and object, which join back to the path |
| CollectiveUtil.MakeHints | tensorflow/python/distribute/collective_util.py:64-87 | construction raises ValueError exactly when bytes_per_pack is negative; otherwise the pack size and the timeout are recorded as given |
| CollectiveUtil.DefaultHints | tensorflow/python/distribute/collective_util.py:64 | the default arguments construct hints with pack size 0 (chosen automatically) and no timeout |
| CollectiveUtil.ConstructedHintsValid | tensorflow/python/distribute/collective_util.py:83-87 | constructed hints have a non-negative pack size, and constructing from their fields again gives the same hints |
| CollectiveAllReduceStrategy.GpuDevices | tensorflow/python/distribute/collective_all_reduce_strategy.py:243 | one device per GPU, the i-th being GPU i under the prefix |
| CollectiveAllReduceStrategy.GpuDeviceDistinct | tensorflow/python/distribute/collective_all_reduce_strategy.py:243 | different GPU numbers give different device names |
| CollectiveAllReduceStrategy.LocalDevicesShape | tensorflow/python/distribute/collective_all_reduce_strategy.py:240-246 | the local devices are one per GPU, or the CPU alone without GPUs; never empty and never listing a device twice |
| CollectiveAllReduceStrategy.ChooseChannel | tensorflow/python/distribute/collective_all_reduce_strategy.py:592-606 | the compute-device channel is chosen exactly when the value spans as many devices as the worker has; otherwise the host channel |
| CollectiveAllReduceStrategy.ReduceTo | tensorflow/python/distribute/collective_all_reduce_strategy.py:616-640 | a Mirrored value under MEAN is returned as is and under SUM fails the assertion; the non-distributed reduction is used only with one worker, for a plain value, over the local device count; a channel reduction never sees a Mirrored value |
| CollectiveAllReduceStrategy.PerReplicaUsesComputeChannel | tensorflow/python/distribute/collective_all_reduce_strategy.py:592-640 | a per-replica value with one component per local device, on a worker with several devices, is reduced on the compute channel |
| CollectiveAllReduceStrategy.ReplicaIdsPartition | tensorflow/python/distribute/collective_all_reduce_strategy.py:490-499 | the global replica ids of all (worker, local replica) pairs lie below workers × local replicas and no two pairs share one |
| CollectiveAllReduceStrategy.ReplicaIdsCover | tensorflow/python/distribute/collective_all_reduce_strategy.py:490-499 | every id below workers × local replicas is the id of some worker's local replica |
| CollectiveAllReduceStrategy.InitialValuePlan | tensorflow/python/distribute/collective_all_reduce_strategy.py:417-464 | replicas other than the first take the primary's value; the first replica broadcasts over num_workers members, sending on the chief and receiving elsewhere, and keeps its own value with a single worker |
| CollectiveAllReduceStrategy.OneSenderPerBroadcast | tensorflow/python/distribute/collective_all_reduce_strategy.py:443-455 | in a cluster with exactly one chief, exactly one first replica sends and every other one receives from a group of the cluster's size |
| CollectiveAllReduceStrategy.ProbePeerBounds | tensorflow/python/distribute/collective_all_reduce_strategy.py:649-676 | a peer is probed at least once and at most max(retry_limit, 1) times, every probe before the last failed with a retryable error, it is alive exactly when the last probe succeeds, INTERNAL exactly for any other exception, and UNAVAILABLE only after the retry limit |
| CollectiveAllReduceStrategy.HealthyClusterNeverAborts | tensorflow/python/distribute/collective_all_reduce_strategy.py:642-680 | when every peer answers every probe, the health loop only ends when it is stopped |
| CollectiveAllReduceStrategy.AbortIsFirstFailure | tensorflow/python/distribute/collective_all_reduce_strategy.py:642-680 | an abort happens in a pass before the stop, every earlier pass found all peers alive, and it names the first peer of its pass found down, with that peer's status code |
| CollectiveAllReduceStrategy.RoundFromFirst | tensorflow/python/distribute/collective_all_reduce_strategy.py:645-676 | the peer a pass reports is down with the reported code and every peer probed before it in the pass is alive |
| CollectiveAllReduceStrategy.LocalGroupSizes | tensorflow/python/distribute/collective_all_reduce_strategy.py:218-283 | local initialisation gives a single chief worker whose compute channel spans the local devices with a group of all replicas in sync, and a host channel of group size 1 |
| CollectiveAllReduceStrategy.MultiWorkerGroupSizes | tensorflow/python/distribute/collective_all_reduce_strategy.py:285-398 | ValueError exactly for a missing task type or id or an empty cluster, RuntimeError exactly for a barrier timeout in eager mode; on success the compute group is local devices × workers and the host group is one device per worker |
| CollectiveAllReduceStrategy.CollectiveAllReduceExtended.constructor | tensorflow/python/distribute/collective_all_reduce_strategy.py:187-210 | the communication is recorded, the retry limit is 3, and nothing is initialised yet |
| CollectiveAllReduceStrategy.CollectiveAllReduceExtended.InitializeLocal | tensorflow/python/distribute/collective_all_reduce_strategy.py:218-283 | the new state is the local initialisation of the old one (see LocalGroupSizes) |
| CollectiveAllReduceStrategy.CollectiveAllReduceExtended.InitializeMultiWorker | tensorflow/python/distribute/collective_all_reduce_strategy.py:285-398 | the new state and the exception are the multi-worker initialisation of the old state (see MultiWorkerGroupSizes) |
| CollectiveAllReduceStrategy.CollectiveAllReduceExtended.StartCheckHealthThread | tensorflow/python/distribute/collective_all_reduce_strategy.py:682-718 | outside eager mode nothing changes; a barrier timeout raises RuntimeError; otherwise the health thread is started |
| CollectiveAllReduceStrategy.CollectiveAllReduceExtended.InitializeStrategy | tensorflow/python/distribute/collective_all_reduce_strategy.py:212-216 | an empty cluster spec initialises locally without error; any other initialises for several workers |
| CollectiveAllReduceStrategy.CollectiveAllReduceExtended.GetCrossDeviceOps | tensorflow/python/distribute/collective_all_reduce_strategy.py:592-606 | the compute-device ops when the value spans as many devices as the worker has, the host ops otherwise |
| CollectiveAllReduceStrategy.CollectiveAllReduceExtended.ValueContexts | tensorflow/python/distribute/collective_all_reduce_strategy.py:490-499 | one context per local replica, with global id id_in_cluster × local replicas + local id and the number of replicas in sync |
| CollectiveAllReduceStrategy.CollectiveAllReduceExtended.CheckHealth | tensorflow/python/distribute/collective_all_reduce_strategy.py:642-680 | the outcome of the loop is the health outcome of the cluster's peers from the first pass on (see AbortIsFirstFailure) |
| CollectiveAllReduceStrategy.CheckPass | tensorflow/python/distribute/collective_all_reduce_strategy.py:645-678 | one pass reports the first peer found down, with its code, or none |
| CollectiveAllReduceStrategy.ProbeWithRetries | tensorflow/python/distribute/collective_all_reduce_strategy.py:649-676 | the retry loop for one peer gives the verdict of ProbePeer from the first attempt (see ProbePeerBounds) |
| SavedModelCli.ParseTensorName | tensorflow/python/tools/saved_model_cli.py:104-111 | a name without a colon or ending in one is returned whole with no slot; otherwise it returns exactly when int() of the text after the last colon does, and then the node is the text before that colon and the slot is that int; the only error is ValueError |
| SavedModelCli.TensorNameRoundTrip | tensorflow/python/tools/saved_model_cli.py:104-111 | "node:k" parses back to (node, k), whatever colons the node contains |
| SavedModelCli.FileAndVariableShape | tensorflow/python/tools/saved_model_cli.py:645-648 | what the first pattern accepts is exactly "file[variable]" with non-empty bracket-free names, with at most a final newline |
| SavedModelCli.RenderedRoundTrip | tensorflow/python/tools/saved_model_cli.py:645-653 | "file[variable]" matches the first pattern with its two names, and "file" matches only the second, with its name |
| SavedModelCli.SegmentShape | tensorflow/python/tools/saved_model_cli.py:643-653 | a segment that parses is "key=file" or "key=file[variable]", its key non-empty and free of '=' |
| SavedModelCli.SegmentRoundTrip | tensorflow/python/tools/saved_model_cli.py:643-653 | "key=file" and "key=file[variable]" parse back to the key and the file reference |
| SavedModelCli.InputsRaiseRuntimeError | tensorflow/python/tools/saved_model_cli.py:654-658 | parsing --inputs only ever raises RuntimeError |
| SavedModelCli.BadSegmentRaises | tensorflow/python/tools/saved_model_cli.py:643-658 | one non-empty segment matching neither pattern makes the whole argument raise RuntimeError |
| SavedModelCli.GoodSegmentsReturn | tensorflow/python/tools/saved_model_cli.py:642-660 | when every non-empty segment matches a pattern the argument parses |
| SavedModelCli.InputsErrorIff | tensorflow/python/tools/saved_model_cli.py:642-660 | --inputs fails, with RuntimeError, exactly when some non-empty segment matches neither pattern |
| SavedModelCli.InputsLastWins | tensorflow/python/tools/saved_model_cli.py:642-660 | each key holds the reference of the last segment naming it, and the keys are distinct |
| SavedModelCli.PreprocessInputsArgString | tensorflow/python/tools/saved_model_cli.py:616-660 | the loop builds the dict of the segments of the argument split at ';' (see InputsErrorIff, InputsLastWins) |
| SavedModelCli.ExprsAsWrittenMisreports | tensorflow/python/tools/saved_model_cli.py:682-686 | as written, "a=1;b" raises ValueError, where the corrected test raises RuntimeError |
| SavedModelCli.ExprsRaiseRuntimeError | tensorflow/python/tools/saved_model_cli.py:682-685 | the corrected parse only ever raises RuntimeError |
| SavedModelCli.BadExprRaises | tensorflow/python/tools/saved_model_cli.py:682-685 | one non-empty segment without '=' makes the corrected parse raise RuntimeError |
| SavedModelCli.GoodExprsReturn | tensorflow/python/tools/saved_model_cli.py:682-689 | when every non-empty segment has an '=' the corrected parse succeeds |
| SavedModelCli.ExprsErrorIff | tensorflow/python/tools/saved_model_cli.py:682-689 | the corrected parse fails, with RuntimeError, exactly when a non-empty segment has no '=' |
| SavedModelCli.ExprsAgree | tensorflow/python/tools/saved_model_cli.py:682-689 | the code as written and the corrected parse agree when each non-empty segment has an '=' exactly when the whole argument does |
| SavedModelCli.ExprsAgreeUnlessMixed | tensorflow/python/tools/saved_model_cli.py:682-689 | they differ only on an argument with an '=' and a non-empty segment without one |
| SavedModelCli.ExprSegmentRoundTrip | tensorflow/python/tools/saved_model_cli.py:686-688 | "key=expr" with a key free of '=' gives the key and the whole rest, which may hold '=' |
| SavedModelCli.PreprocessInputExprsArgString | tensorflow/python/tools/saved_model_cli.py:663-689 | the loop builds the corrected parse of the segments (see ExprsErrorIff) |
| SavedModelCli.EachOf | tensorflow/python/tools/saved_model_cli.py:718-720 | a result holds, item by item, what each item gave; a failure is what some item raised with none before it raising |
| SavedModelCli.EachOfAll | tensorflow/python/tools/saved_model_cli.py:718-720 | the items give a result exactly when none raises |
| SavedModelCli.EachOfRaises | tensorflow/python/tools/saved_model_cli.py:718-720 | the items raise an exception exactly when the first item to raise raises it |
| SavedModelCli.FeatureOf | tensorflow/python/tools/saved_model_cli.py:727-743 | a feature value that is not a list raises ValueError, an empty list IndexError, a first element that is not a float, str or integer ValueError; otherwise the list goes into the float, bytes or int64 list chosen by its first element |
| SavedModelCli.CreateExample | tensorflow/python/tools/saved_model_cli.py:724-744 | a value that is not a dictionary raises AttributeError; otherwise the features in order, or the first feature's error (IndexError exactly when that feature's list is empty) |
| SavedModelCli.ExampleInput | tensorflow/python/tools/saved_model_cli.py:713-720 | a value that is not a list raises ValueError; otherwise one example per item, or the first bad example's error: AttributeError exactly when it is not a dictionary, IndexError exactly when its first bad feature is an empty list |
| SavedModelCli.ExamplesOf | tensorflow/python/tools/saved_model_cli.py:712-721 | the evaluated dict gives a result exactly when each key's examples do; the result keeps the keys in order with each key's examples; errors are ValueError, AttributeError or IndexError |
| SavedModelCli.ParsedExamples | tensorflow/python/tools/saved_model_cli.py:692-721 | the --input_exprs parse of the argument, then ExamplesOf on it; a parse failure is passed on, and the errors are RuntimeError, ValueError, AttributeError or IndexError |
| SavedModelCli.LoadFileInput | tensorflow/python/tools/saved_model_cli.py:798-829 | loading one entry raises only RuntimeError and otherwise gives an array of the named file |
| SavedModelCli.InputPrecedence | tensorflow/python/tools/saved_model_cli.py:832-846 | a key holds its --input_examples value if any, else its --input_exprs value if any, else what its file gave |
| SavedModelCli.LoadFiles | tensorflow/python/tools/saved_model_cli.py:798-829 | the file loop gives the loaded entries in order, or the first RuntimeError |
| SavedModelCli.Override | tensorflow/python/tools/saved_model_cli.py:832-846 | an override loop assigns every item into the feed dict, in order |
| SavedModelCli.LoadInputsFromInputArgString | tensorflow/python/tools/saved_model_cli.py:747-847 | the three arguments parsed in order, the files loaded, then the overrides (see InputPrecedence) |
| SavedModelCli.Run | tensorflow/python/tools/saved_model_cli.py:872-885 | AttributeError when none of the three input options is given; otherwise the loaded feed dict or its error |
| SavedModelCli.LoadErrorKinds | tensorflow/python/tools/saved_model_cli.py:747-847 | loading raises RuntimeError, ValueError, AttributeError or IndexError; AttributeError exactly when --inputs and --input_exprs parse and the first bad --input_examples key's first bad example is not a dictionary, IndexError exactly when it is one whose first bad feature is an empty list |
| SavedModelCli.ExamplesRaiseIff | tensorflow/python/tools/saved_model_cli.py:712-744 | the --input_examples argument raises AttributeError or IndexError exactly when it parses and the first key to raise raises that kind |
| SavedModelCli.ExampleErrorKinds | tensorflow/python/tools/saved_model_cli.py:724-731 | k=[1] raises AttributeError and k=[{"f": []}] raises IndexError |
| TensorTracer.OpPriority | tensorflow/python/tpu/tensor_tracer.py:221-261 | the priority is 0 exactly for an op in no group; otherwise it is the highest group (at most 7) listing the op |
| TensorTracer.InterestingMonotone | tensorflow/python/tpu/tensor_tracer.py:528-533 | raising the trace level never drops an op, every op is traced from level 7 on, and an op in no group from level 0 on |
| TensorTracer.OpRangeInterval | tensorflow/python/tpu/tensor_tracer.py:637-643 | an index is inside the op range exactly when it is at least the lower bound and, unless the upper bound is negative, at most the upper bound |
| TensorTracer.Reason | tensorflow/python/tpu/tensor_tracer.py:535-539 | the reason ends with a space and the details |
| TensorTracer.ReasonInjective | tensorflow/python/tpu/tensor_tracer.py:535-539 | equal reasons come from equal indices and details |
| TensorTracer.TraceFilesNeedPrecreated | tensorflow/python/tpu/tensor_tracer.py:369-384 | files must be pre-created exactly for output directories starting with "/cns/" |
| TensorTracer.CheckDeviceType | tensorflow/python/tpu/tensor_tracer.py:432-438 | ValueError exactly for a device type other than TPU and CPU |
| TensorTracer.CheckTraceMode | tensorflow/python/tpu/tensor_tracer.py:439-451 | ValueError exactly for full_tensor_summary on a device other than a TPU |
| TensorTracer.DeviceModeChecks | tensorflow/python/tpu/tensor_tracer.py:432-451 | both checks pass for full_tensor_summary exactly on a TPU, and for every other mode exactly on a TPU or a CPU |
| TensorTracer.FetchOps | tensorflow/python/tpu/tensor_tracer.py:1248-1257 | RuntimeError exactly when a fetch is neither an op nor a tensor; otherwise the op of each fetch, in order |
| TensorTracer.VisitInputs | tensorflow/python/tpu/tensor_tracer.py:1264-1275 | every input of the op is on the path afterwards unless it is a loop condition; what is added is new, no loop condition, and an input of the op |
| TensorTracer.FilterExecutionPathOperations | tensorflow/python/tpu/tensor_tracer.py:1239-1276 | without fetches every op; RuntimeError exactly for a bad fetch; otherwise a set holding the fetched ops, closed under inputs (loop conditions apart), each op justified from a fetch |
| TensorTracer.ExecutionPathIsLeast | tensorflow/python/tpu/tensor_tracer.py:1239-1276 | the ops kept lie inside every set that holds the fetched ops and is closed under inputs: the result is the least such set |
| TensorTracer.JustifiedInClosed | tensorflow/python/tpu/tensor_tracer.py:1259-1275 | every op reached from the fetches lies in any closed set holding the fetches |
| TensorTracer.VisitTensorInputs | tensorflow/python/tpu/tensor_tracer.py:1045-1049 | every input of the dequeued tensor is visited afterwards, the new ones queued one hop further out, old distances kept |
| TensorTracer.ExpandHead | tensorflow/python/tpu/tensor_tracer.py:1039-1049 | one turn of the search keeps the queue breadth-first and the visited map in step with it, and the visited set grows or the queue is unchanged |
| TensorTracer.GetDistanceKTensors | tensorflow/python/tpu/tensor_tracer.py:1032-1050 | a negative k gives no tensors; otherwise the queue starts at the tensor, has no repeats, and holds each tensor at its distance of at most k, every tensor closer than k having its inputs visited |
| TensorTracer.QueuedHasPath | tensorflow/python/tpu/tensor_tracer.py:1032-1050 | every tensor returned is reached from the tensor by an input path of its recorded distance, at most k hops |
| TensorTracer.WithinKHopsQueued | tensorflow/python/tpu/tensor_tracer.py:1032-1050 | every tensor reachable in at most k hops is returned, at a distance no greater than the hops taken |
| SpecialMathOps.RemoveSpaces | tensorflow/python/ops/special_math_ops.py:341 | the result has no spaces and every other character of the equation, and an equation without spaces is unchanged |
| SpecialMathOps.SplitEllipsis | tensorflow/python/ops/special_math_ops.py:363 | at least one piece, two or more exactly when the text has an ellipsis, and the pieces hold everything but three characters per ellipsis |
| SpecialMathOps.ReplaceIsSplitJoin | tensorflow/python/ops/special_math_ops.py:363-376 | replacing every ellipsis is splitting at the ellipses and joining with the replacement |
| SpecialMathOps.ReplaceWithoutEllipsis | tensorflow/python/ops/special_math_ops.py:375-376 | without an ellipsis the replacement changes nothing |
| SpecialMathOps.SortedAscii | tensorflow/python/ops/special_math_ops.py:392 | sorted() of a set of ASCII labels holds exactly those labels, in increasing order |
| SpecialMathOps.MatchSubscripts | tensorflow/python/ops/special_math_ops.py:342-347 | a match's input group is made of letters, commas and the extra characters (non-empty for the first parser), its output group of letters and the extra characters; the text is the groups laid out with the arrow and at most a final newline; there is an output exactly when the text has a '-' |
| SpecialMathOps.MatchComplete | tensorflow/python/ops/special_math_ops.py:342-347 | every text of that layout matches, with the groups it was built from |
| SpecialMathOps.ReplacementAxes | tensorflow/python/ops/special_math_ops.py:363-374 | ValueError only; the replacement is a suffix of the unused letters that brings the subscript to the input's rank |
| SpecialMathOps.ResolveEllipses | tensorflow/python/ops/special_math_ops.py:358-378 | ValueError only; every subscript with an ellipsis gets the length of its input's rank, the others are unchanged, and the ellipsis axes are a suffix of the unused letters |
| SpecialMathOps.ImplicitOutputV1 | tensorflow/python/ops/special_math_ops.py:388-400 | the implicit output starts with the ellipsis axes, followed in increasing order by exactly the other labels that occur once |
| SpecialMathOps.EinsumV1Parse | tensorflow/python/ops/special_math_ops.py:341-402 | ValueError only, and one subscript per input |
| SpecialMathOps.V1NoStrayPeriods | tensorflow/python/ops/special_math_ops.py:380-386 | with periods refused in every equation, no label of the result is a period |
| SpecialMathOps.V1StrayPeriodAccepted | tensorflow/python/ops/special_math_ops.py:358-386 | as written, "a.b->ab" with a rank-3 input is accepted with the period as a label; with periods refused it is ValueError |
| SpecialMathOps.V1AcceptsWellFormed | tensorflow/python/ops/special_math_ops.py:341-402 | every equation of letter subscripts with an explicit output and one subscript per input is accepted as written |
| SpecialMathOps.CountLabels | tensorflow/python/ops/special_math_ops.py:390-397 | the counts hold exactly the labels outside the ellipsis axes, each with its number of occurrences |
| SpecialMathOps.CountWord | tensorflow/python/ops/special_math_ops.py:395-397 | counting one more subscript adds its occurrences to each count |
| SpecialMathOps.ResolveEllipsesLoop | tensorflow/python/ops/special_math_ops.py:358-378 | the loop gives ResolveEllipses of its inputs |
| SpecialMathOps.EinsumV1ParseAndResolveEquation | tensorflow/python/ops/special_math_ops.py:322-402 | the parse with periods refused in every equation (see V1NoStrayPeriods, V1AcceptsWellFormed) |
| SpecialMathOps.ImplicitOutputV2 | tensorflow/python/ops/special_math_ops.py:763-769 | exactly the labels other than ',' that occur once, in increasing order |
| SpecialMathOps.V2Subscripts | tensorflow/python/ops/special_math_ops.py:730-785 | ValueError only, and always when an equation with an ellipsis has a '0'; on success one subscript per input, an output without repeats naming only input labels or the ellipsis, and the ellipsis label '0' exactly when the equation has an ellipsis |
| SpecialMathOps.CheckSubscripts | tensorflow/python/ops/special_math_ops.py:746-785 | the same facts on the prepared equation, and without an arrow the implicit output appended to it |
| SpecialMathOps.V2ImplicitOutputAppended | tensorflow/python/ops/special_math_ops.py:763-769 | without an arrow the resolved equation is the equation, spaces removed and ellipsis written '0', then '->' and the implicit output |
| SpecialMathOps.V2AcceptsWellFormed | tensorflow/python/ops/special_math_ops.py:730-790 | a letter equation for at most two inputs, whose output names distinct input labels, is returned as written with no resolved shapes |
| SpecialMathOps.V2SecondEllipsisCheckRedundant | tensorflow/python/ops/special_math_ops.py:771-785 | an output that passed the repeated-label check holds '0' at most once, so the multiple-ellipsis check never fires |
| SpecialMathOps.FirstLastOccurrence | tensorflow/python/ops/special_math_ops.py:796-799 | the first and last occurrence of a label coincide exactly when it occurs once |
| SpecialMathOps.CollapseEllipsis | tensorflow/python/ops/special_math_ops.py:796-816 | ValueError exactly for two ellipses, more labels than dimensions plus one, or without an ellipsis a label count other than the rank; otherwise one dimension per label, the ellipsis standing for the product of its known non-zero dimensions |
| SpecialMathOps.KnownDims | tensorflow/python/ops/special_math_ops.py:793-816 | the (label, dim) pairs read fail only with ValueError |
| SpecialMathOps.MaxDimsIsMaximum | tensorflow/python/ops/special_math_ops.py:792-819 | a label's dimension is at least 1, at least every known dimension under that label, and 1 or one of them |
| SpecialMathOps.MaxDimsPositive | tensorflow/python/ops/special_math_ops.py:792 | every resolved dimension is at least 1 |
| SpecialMathOps.ResolvedShapes | tensorflow/python/ops/special_math_ops.py:821-823 | one shape per input, one dimension per label |
| SpecialMathOps.EinsumV2Parse | tensorflow/python/ops/special_math_ops.py:730-824 | ValueError only; resolved shapes exactly for more than two inputs, one per input |
| SpecialMathOps.V2ResolvedDimIsMax | tensorflow/python/ops/special_math_ops.py:792-823 | each resolved dimension is at least 1, at least every known dimension its label stands over in any input, and 1 or one of them |
| SpecialMathOps.MaxInto | tensorflow/python/ops/special_math_ops.py:817-819 | max-updating with one input's known dimensions extends the map of all pairs read so far |
| SpecialMathOps.LabelToDim | tensorflow/python/ops/special_math_ops.py:792-819 | the loop fails with the error of the pairs read, or gives their maxima (see MaxDimsIsMaximum) |
| SpecialMathOps.ResolveShapes | tensorflow/python/ops/special_math_ops.py:821-823 | the loop gives the resolved shapes |
| SpecialMathOps.EinsumV2ParseAndResolveEquation | tensorflow/python/ops/special_math_ops.py:730-824 | the method gives EinsumV2Parse of its inputs (see V2ResolvedDimIsMax) |
| SpecialMathOps.TotalSize | tensorflow/python/ops/special_math_ops.py:568-577 | the result is the product of the shape values |
| SpecialMathOps.TransposeIfNecessary | tensorflow/python/ops/special_math_ops.py:533-538 | the tensor itself exactly when the permutation is the identity; either way its shape is the permuted shape |

## Left out

- DispatcherState: dispatcher_state.h is not part of this model, so the id counters are taken to start at 0; journal message encoding, logging and DebugString are left out; DCHECKs are preconditions.
- DispatcherState.DispatcherState.JobForJobClientId: on an unknown client id the source's jobs_for_client_ids_[id] (dispatcher_state.cc:230) inserts a null entry into the map before returning NOT_FOUND; the model leaves the map unchanged.
- EventSpan: event_span.h is not part of this model, so the EventType values and their order are assumed as listed in the module; the Print* functions and operator== are left out; hash-map iteration order is not modelled (maps are Dafny maps).
- EventSpan.ToNonOverlappedEvents: uses the corrected priority tracker (see Findings).
- EventSpan.ToNonOverlappedStepEvents: requires every step to have at least one event. For a step with none, the source's loop bound size() - 1 wraps around as an unsigned size and the loop reads past the end of the empty boundary vector, which is undefined behaviour; no outcome is modelled for it.
- XplaneToStepEvents: the device event classifier called with two arguments is not part of this model and is a function parameter; stat lookup by metadata id is reduced to stat kinds.
- VectorToVector: int64 overflow of shape products is not modelled; IR creation and the unroll-state setup are left out, as is shapeRatio's use of optional results beyond what the module states.
- AffineExpr: uint64 wrap-around of the divisor arithmetic is not modelled (integers are unbounded); walk, toAffineExpr and the flattener are left out.
- AffineExpr.IsMultipleOf: a factor of 0 is excluded by a precondition, and factor*factor is computed without wrap-around.
- Attributes: element storage is abstract (no readBits, APInt or APFloat); the uint64 index of the as-written check is modelled, other widths are not.
- Attributes.GetValue: compares each index with its dimension as unsigned values (the corrected check). The source's comparison through static_cast<int64_t> is AcceptedAsWritten, which lets an index of 2^63 or more through (see Findings).
- OperationSupport: OperationSupport.h is not part of this model, so the initial capacity is taken to equal the operand count and the resizable flag is fixed at construction; use lists, destructors and operand values beyond plain integers are left out.
- LoopUtils: IR rewriting and cloning, promoteSingleIterationLoops, and the prologue and epilogue bodies are left out; the shift is expressed in delay units.
- LoopUtils.SweepGroups: does not claim that each group runs exactly over the iterations [d, d + tripCount), because the source's sweep does not give that when delays are far apart (delays [0, 0, 0, 3] with trip count 1); it states the chunks' shape and that every non-empty group is covered, not the order of groups within a chunk.
- Pytree: pytree.h is not part of this model, so node defaults have counts 0; Python objects and callbacks are abstract, with only custom object types registrable; int dictionary keys are modelled, and the PyList_Sort failure path is left out; FlattenUpTo, Walk, FromIterableTree, ToString, AllLeaves and Singleton are left out, as are error message texts and the out.size() != 2 check.
- Pytree.Compose: updates the counts of the root only, as the source does.
- Pytree.Children: requires non-negative node counts.
- MklUtil: int64 overflow is not modelled; op ownership and deletion (including the op deleted by a duplicate SetOp), null op pointers, the thread-local MklPrimitiveFactory (capacity 1024), the FORMAT_UNDEF DCHECK, the V1 variant, the kMaxKeyLength reserve and AddAsKey for non-integer types are left out.
- MklUtil.GetStridesFromSizes: requires strides and sizes to be different arrays; aliasing is not modelled.
- MklUtil: tensor_format.h is not part of this model, so every format other than NHWC takes the NCHW branch, as the code's if/else does.
- BufferAssignment: assigned buffers, heap traces, peak buffers, fragmentation, GetSlice, ToString and ToProto are left out; int64 overflow of offset + size is not modelled; a default Slice with a null allocation is not modelled, and a slice names its allocation by index.
- UnionFind: UnifyValues is declared but unused and is left out; union_find.h is not part of this model, so HasStaticBatchSize and HasDynamicBatchSize are tests of the two fields; the device-name merge rule belongs to DeviceNameUtils, not part of this model, and is a function parameter; error message texts are left out.
- ResourceAliasAnalysis: resource_alias_analysis.h is not part of this model, so AddValueUniqueIDMapping is taken to record the pair in both maps and kUnknownResourceId to be -1; ResourceHandle::ANONYMOUS_NAME is taken as TensorFlow's fixed anonymous name.
- ResourceAliasAnalysis: the IR is abstract. Values are numbers ordered so that backtracking terminates, resource types are a set of values, the walk is a list of op descriptions, and the pass-through tables of While and If are inputs (they are GetArg of the body functions' analyses).
- ResourceAliasAnalysis: the module-level ResourceAliasAnalysis constructor, which builds one analysis per function, and the lookups GetResourceUniqueIds and GetUniqueIdResources (IdsOf and ValuesOf here) are not modelled separately; a failed assertion is the `ok = false` result.
- ResourceAliasAnalysis.Walk: states only the invariants; the effect of each op is stated by the Visit methods.
- ResourceAliasAnalysis.IsUnknownIff: is about the corrected IsUnknownResource, the smallest id. The source takes *begin() of an llvm::SmallSet<int64_t, 8>, the first id inserted while the set holds at most eight ids, so a value given another id before the unknown one is reported known (see Findings, resource_alias_analysis.cc:351-359, and AsWrittenUnknownIff).
- ResourceAliasAnalysis.ResourceAliasAnalysisInfo.VisitIdentity: on failure (an unseen operand, where the source's assertion fails) states only the invariants, not which results were already forwarded before it.
- ResourceAliasAnalysis.ResourceAliasAnalysisInfo.VisitWhile: on failure (an unseen operand, where the source's assertion fails) states only the invariants, not which results were already forwarded before it.
- ResourceAliasAnalysis.ResourceAliasAnalysisInfo.VisitIf: on failure (an unseen operand, where the source's assertion fails) states only the invariants, not which results were already forwarded before it.
- ResourceAliasAnalysis.ResourceAliasAnalysisInfo.ForwardInputToOutput: forwards with the corrected Forward, which also records the result under each forwarded id. The source's forward_input_to_output (resource_alias_analysis.cc:265-276) adds the operand's ids to the result's id set only (ForwardAsWritten): after a VarHandle v0 and an Identity v0 -> v1, the source leaves id 0 mapped to {v0} where the model maps it to {v0, v1} (see Findings).
- ResourceAliasAnalysis.ResourceAliasAnalysisInfo.ForwardKeeping: forwards with the corrected Forward, which also records the result under each forwarded id. The source's forward_input_to_output (resource_alias_analysis.cc:265-276) adds the operand's ids to the result's id set only (ForwardAsWritten): after a VarHandle v0 and an Identity v0 -> v1, the source leaves id 0 mapped to {v0} where the model maps it to {v0, v1} (see Findings).
- ResourceAliasAnalysis.ResourceAliasAnalysisInfo.VisitIdentity: forwards with the corrected Forward, which also records the result under each forwarded id. The source's forward_input_to_output (resource_alias_analysis.cc:265-276) adds the operand's ids to the result's id set only (ForwardAsWritten): after a VarHandle v0 and an Identity v0 -> v1, the source leaves id 0 mapped to {v0} where the model maps it to {v0, v1} (see Findings).
- ResourceAliasAnalysis.ResourceAliasAnalysisInfo.VisitWhile: forwards with the corrected Forward, which also records the result under each forwarded id. The source's forward_input_to_output (resource_alias_analysis.cc:265-276) adds the operand's ids to the result's id set only (ForwardAsWritten): after a VarHandle v0 and an Identity v0 -> v1, the source leaves id 0 mapped to {v0} where the model maps it to {v0, v1} (see Findings).
- ResourceAliasAnalysis.ResourceAliasAnalysisInfo.VisitIf: forwards with the corrected Forward, which also records the result under each forwarded id. The source's forward_input_to_output (resource_alias_analysis.cc:265-276) adds the operand's ids to the result's id set only (ForwardAsWritten): after a VarHandle v0 and an Identity v0 -> v1, the source leaves id 0 mapped to {v0} where the model maps it to {v0, v1} (see Findings).
- ResourceAliasAnalysis.ResourceAliasAnalysisInfo.VisitOp: forwards with the corrected Forward, which also records the result under each forwarded id. The source's forward_input_to_output (resource_alias_analysis.cc:265-276) adds the operand's ids to the result's id set only (ForwardAsWritten): after a VarHandle v0 and an Identity v0 -> v1, the source leaves id 0 mapped to {v0} where the model maps it to {v0, v1} (see Findings).
- ResourceAliasAnalysis.ResourceAliasAnalysisInfo.Walk: forwards with the corrected Forward, which also records the result under each forwarded id. The source's forward_input_to_output (resource_alias_analysis.cc:265-276) adds the operand's ids to the result's id set only (ForwardAsWritten): after a VarHandle v0 and an Identity v0 -> v1, the source leaves id 0 mapped to {v0} where the model maps it to {v0, v1} (see Findings).
- ResourceAliasAnalysis.ResourceAliasAnalysisInfo.Build: forwards with the corrected Forward, which also records the result under each forwarded id. The source's forward_input_to_output (resource_alias_analysis.cc:265-276) adds the operand's ids to the result's id set only (ForwardAsWritten): after a VarHandle v0 and an Identity v0 -> v1, the source leaves id 0 mapped to {v0} where the model maps it to {v0, v1} (see Findings).
- ConditionalSimplifier: HLO instructions and computations are abstract. A branch is a list of opcodes with an elementwise flag, and a selector is a constant or a computed value. Cloning branches, creating call, select, broadcast and get-tuple-element instructions and inlining the calls are left out.
- ConditionalSimplifier: TryRemoveUnusedConditionalOperands, ReplaceRootWithEmptyTupleIfNoUsers and the Run driver are left out; each is a further graph rewrite over the same abstract conditional.
- ConditionalSimplifier.TryRemovePreservesRun: states the branch and operand that run, not the select tree built over tuple shapes.
- ConditionalSimplifier.ConditionalOp.RemoveUnusedTupleElements: the rebuilt branch roots are not modelled; the contract covers the shape and the users' indices, and Project states which elements the new roots keep.
- ConditionalSimplifier: the int32 constant selector is an unbounded integer; no wrap-around arises because only its comparison with the branch count is used.
- ConditionalThunk: the profiler calls, the device memory copy and BlockHostUntilDone are left out; the fetched selector, or the wait's failure, is a parameter, and the branch thunks are numbers whose initialisation and execution statuses are parameters.
- PropagatorState: propagator_state.h is not part of this model, so the counters are taken to start as the constructor leaves them (iteration_count 0, num_outstanding_iterations 1) and GetIteration to read slot iter mod (max_parallel_iterations + 1); iterations_first, the frame id (Hash64), parent pointers, DumpState and the locks are left out.
- PropagatorState: ActivateNodes (the fast and slow paths, pending counts and the ready queue) is the parameter activate, giving the number of nodes made ready in an iteration; the outstanding ops it adds are summed before the new iteration is stored, where the source stores it first and adds them in place.
- PropagatorState: PropagateOutputs is modelled for NextIteration nodes only; the Enter, Exit and ordinary paths, AddLoopInv, DeleteFrame with dead-exit propagation, and the recursion of CleanupFramesIterations into the parent frame are left out (ChildFrameDone is the frame's part of one step).
- PropagatorState: an IterationState is held by value in its slot, so aliasing of IterationState pointers is not modelled; int64 counters are unbounded.
- PropagatorState.FrameState.constructor: parallel_iterations is required to be at least 1, which the frame attribute guarantees for While loops.
- PropagatorState.ChildNameInjective: requires Enter frame names without ';'; the source does not check this.
- ParallelMapDataset: threads, the mutex and condition variable, the stats thread, cancellation registration and the model node are left out; each method is one critical section, and the waits of GetNext, the runner and SaveInternal are the MustWait, AwaitingCompletion, RunnerWaits and SaveMustWait outcomes. The external-state check at the head of SaveInternal is not modelled.
- ParallelMapDataset: model.h and dataset.h are not part of this model, so kAutotune is taken as -1 and kUnknownCardinality as -2; DeterminismPolicy::FromString for version 2 is not part of this model, and the policy is an input.
- ParallelMapDataset: shared pointers to invocation results are modelled by ids carried in the deque, so CallCompleted updates the entry with that id; tensors are opaque numbers, error messages and the size_t check of RestoreInternal are left out, and input iterators and the mapped function are parameters.
- BatchResourceBase: Concat and Split of concat_split_util are not part of this model; they are taken to succeed and to concatenate and cut rows, so their Internal errors do not arise. Tensors keep only their rank and their rows.
- BatchResourceBase: monitoring, tracing, the clock, contexts and done callbacks, captured inputs, CreateBatchTask, ProcessFuncBatch, ProcessBatch and the choice between a task's context and its shared output matrix are left out; the batcher's AddQueue result is an input and Schedule is taken to append the task.
- BatchResourceBase.BatchResource.RegisterInput: requires at least one input tensor, because the source reads the first tensor after the loop whatever the count.
- BatchResourceBase.MakeTask: requires at least one input tensor, for the same reason.
- BatchResourceBase: batch_resource_base.h and batch_scheduler.h are not part of this model; a task's size is taken as the 0th dimension of its first input and a batch's size as the sum of its task sizes.
- BatchResourceBase.SplitInputTask: the DCHECK that the task is larger than the open slot becomes a requires; the narrowing of the int64 size to int in the loop is not modelled.
- Rebatch: MutateBatchSize's new nodes (the copied batch-size node, the casts, the num_workers constant and the division), their unique names and the fan-in update are modelled by one DividedBy value in the batching node; float division and rounding are not modelled.
- Rebatch.FindSinkNode: the iteration order of the hash map of input counts is unspecified; the model scans names in the nodes' order, and FirstSinkMeans states what holds for any order.
- Rebatch: input names are plain node names (ports and control inputs are not parsed), and an input resolves to the last node of that name. graph_utils and the graph view are not part of this model.
- Rebatch.HandleOp: a missing input node, a missing function, and recursion deeper than the fuel bound all end in Stuck. The source dereferences a null pointer in the first two cases and recurses without a bound on a cyclic graph.
- Rebatch: MakeGrapplerFunctionItem, MakeFunctionDef and the library's AddFunctionDef and ReplaceFunction are taken to succeed. A function body is a node list of the library, rewritten against the outer library. Feedback and the optimizer registration are left out.
- Rebatch.RebatchOptimizer.Init: requires num_workers in a given config, because the source's map lookup throws otherwise.
- ModelBuilder: dimension arrays are sequences, so SetAllDimensions<Scalar>'s test for a negative size has no counterpart.
- ModelBuilder: node creation, reading tensors through the ObjectReader, the graph's producer and consumer links, CheckInputsOutputs, CheckTensorIsAvailable and the other operation parsers (convolutions, fully connected, activations and so on) are not modelled; the parsers above take the tensors' contents and the input and output shapes as parameters. NewOperationParser, BuildModel and BuildFinalModel are not part of this model.
- ModelBuilder.ParsePoolingAttributes: UpdatePadding and CalculateSamePadding are not part of this model; only the kernel and strides are parsed.
- ModelBuilder.ParseStridedSlice: requires the end and strides tensors to have at least as many entries as the begin tensor, because the source reads them unchecked; a missing params record (InternalError) is not modelled.
- ModelBuilder.GraphPartitionHelper: the TfLite context is replaced by parameters (the execution plan, the nodes whose lookup succeeds, the support test's verdicts and the preview's partitions); the unsupported-op messages, RemapInputTensors and the fp16 dequantize input remapping that rewrites TfLiteNode inputs are not modelled.
- OperatorProperty: operator_property.h is not part of this model, so the defaults of TensorProperty (8 bits, per-tensor, asymmetric, no restriction) and of OperatorProperty (quantizable, version -1) are assumed.
- OperatorProperty: float scales and factors are exact reals; every constant in the table is a binary fraction, so nothing is rounded.
- OperatorProperty: the eight hand-written LSTM variants are written as one block-by-block list per variant flag; LstmInputsTagged states that the blocks give each variant's inputs in the source's order.
- OperatorProperty.PropertyWellFormed: excludes LSTM, because distinctness of its up to 23 input indices is not proved; LstmIndicesLayout states which indices it lists instead.
- OperatorProperty.GetOperatorProperty: requires the subgraph, operator and operator-code indices to exist and the LSTM inputs the variant reads to exist, because the source indexes them unchecked (`at` aborts on a bad subgraph index).
- WhitelistedFlexOps: the set is a `static` built on the first call and never changed; the model is a constant, so every query sees the same set, and the one-time heap allocation is not modelled.
- WhitelistedFlexOps: the 511 names are stored by first character as in the source's sorted list; that the stored remainders spell exactly the source's names is a fact about the literal table, not a proved lemma.
- LiteUtil: util.h, common.h, builtin_ops.h and schema_generated.h are not part of this model; the Flex prefix "Flex", the TfLiteType enumerators, kTfLiteBuiltinCustom = 32, kTfLiteBuiltinDelegate = 51 and the usual sizes (bool 1 byte, TfLiteFloat16 2 bytes, size_t 64 bits) are assumed.
- LiteUtil: EnumNameBuiltinOperator is a schema table not in this model, so GetOpNameByRegistration takes it as a parameter.
- LiteUtil: the context's ReportError messages are I/O; GetSizeOfType only records whether an error was reported, and UnresolvedOpInvoke is represented by its identity alone (its kTfLiteError result is not modelled).
- LiteUtil: TfLiteIntArray is an `array<int>` whose length is its size; the source's `dims` and `b` pointers are only read, so they are sequences, and int overflow of a vector's size is not modelled.
- LiteUtil: a registration keeps only invoke, builtin_code, custom_name and version; init, free, prepare and user_data are always null here.
- MicroReduce: the reference kernels (Mean, ReduceGeneric), QuantizeMultiplier and MultiplyByQuantizedMultiplier are not part of this model; their results are parameters (`referenceOk`, `reduceOk`, the written output, `quantize`, `rescale`).
- MicroReduce: the float32 max reduction uses the same reducer from the lowest float; floating point is not modelled, so ReduceMaxIsMaximum is stated on integers.
- MicroReduce: the scratch arena is modelled as the list of requested sizes, a request's index being its position; the persistent buffer InitMax allocates is the OpData constructor, and the registrations Register_MEAN and Register_REDUCE_MAX are not modelled.
- MicroReduce: the kernel log messages are I/O and are not modelled.
- BatchMatMul: the GEMM (cpu_backend_gemm::Gemm) is not part of this model; each call is recorded as its three data offsets, and the float data, the unused output_shape and the CPU backend context are left out.
- BatchMatMul: the TFLITE_DCHECKs of broadcast_dim and of RuntimeShape::ExtendedShape are preconditions (`Broadcastable`, rank at most 5); int overflow of the offsets is not modelled.
- InferenceContext: BHWC, TensorDescriptor and ValueId are defined in headers that are not part of this model; the shape is four integers, the descriptor three enum values whose value-initialized form is 0 (UNKNOWN), and ValueId a uint32.
- InferenceContext.TensorReserver.Add: next_ is uninitialized in the source, so Add(dummy) requires an earlier SetNext (a ghost flag); the rest of InferenceContext (OpenCL nodes, memory planning, execution) is not part of this model.
- SimpleMemoryAllocator: simple_memory_allocator.cc is not part of this model; the operations implement the contract of the header's comments on integer addresses (an allocation that does not fit returns nullptr), the alignment is assumed positive, and size_t wrap-around of pointer differences is not modelled.
- SimpleMemoryAllocator: the ErrorReporter messages, the virtual destructor, and the placement of the object itself that Create performs are not modelled; Create is the buffer-and-size constructor.
- SimpleMemoryAllocator: the temporary chain is guaranteed only against the head: a tail allocation made while a chain is open is checked against the head watermark, as the header documents, so the model does not claim that tail memory avoids open temporary blocks.
- GpuDelegate: delegate.h is not part of this model; the values of the priority and preference constants (auto 0, max precision 1, min latency 2, min memory usage 3; fast single answer 0, sustained speed 1) and the value-initialized inference options (sustained speed, max precision, auto, auto) are taken from the delegate's public API as assumptions.
- GpuDelegate: the OpenCL and OpenGL environments, graph building, the builders and the runner are abstract; Prepare and Invoke receive their statuses as parameters, and Prepare assumes that setting the input and output object definitions succeeds.
- GpuDelegate: GetObjectDef, GetTensorObject, the registration callbacks of DelegatePrepare, GetOpsToReplace, TfLiteGpuDelegateV2Create and Delete, and all logging are not modelled; they only forward to the TFLite runtime or to the abstract back ends.
- HexagonDelegateKernel: the kernel header and the Hexagon NN library are not part of this model; the library's calls are abstract (their error codes are parameters), the state names follow the enumerators the source switches over, kTfLiteOptionalTensor is taken as -1, and a value-initialized options record is taken as all zero.
- HexagonDelegateKernel: Get4DShape, the pointers stored in the tensor definitions, BuildGraph's op builders, the destructor, Teardown, InitState, PrintLog, PrintPerformanceData (including its std::sort with PerfInfoCmp and its 64-bit running totals) and PrintDebuggingGraph are not modelled; they print or forward to the library.
- Dlpack: dlpack.h, the TensorFlow type sizes and the device-name parser are not part of this model; the DLPack code and device constants (int 0, uint 1, float 2, bfloat 4; CPU 1, GPU 2) and the element sizes of TF_DataTypeSize (0 for string, resource and variant) are taken as assumptions.
- Dlpack: GetTensorFromHandle is not modelled; the handle is taken to be valid and local (on an invalid or remote handle the source goes on to dereference the null tensor it got back). The data pointer, the managed context, the deleter and reference counting are not modelled.
- Dlpack: where the source sets an error status but goes on (an unsupported device or type during export, an unsupported type during import), the export model fills the unset fields with placeholders and reports the status, and the import model stops at the error; the later TFE_NewTensorHandleFromDeviceMemory call is not modelled.
- Dlpack: dimensions, strides and byte counts are unbounded integers; the int64 and size_t overflow of their products is not modelled.
- Dlpack.HandleFromDLPack: uses the corrected stride check IsCompactRowMajorData. The source (dlpack.cc:313) calls IsValidStrideCompactRowMajorData, which also accepts non-compact strides such as [6, 2] for shape [2, 3] (see Findings).
- Gradients: gradients.h and gradients_internal.h are not part of this model; TensorShape::MaxDimensions is taken as 254. Factories are identified by an id and the function a factory builds is its id paired with the forward operation.
- Gradients: TapeTensor (reference counting, OnesLike, ZerosLike), TapeVSpace's NumElements, CallBackwardFunction, TensorId, MarkAsResult and DeleteGradient, ToId, and Execute's recording on the tape are not modelled; they forward to the eager runtime or the tape.
- Gradients.ForwardOperation.SetAttr: float attributes and the list setters are represented by the attribute value they record; the SetAttrBoolList copy loop is not modelled separately.
- Tridiagonal: the Thomas algorithm's forward elimination and back substitution are floating-point arithmetic on XLA operations and are not modelled; XlaBuilder errors are collapsed into InvalidArgument, and a transpose whose order does not fit the right-hand side's rank is taken to fail like them.
- Tridiagonal.PackedShapeAccepted: the comment above the packed solver says the right-hand side is [..., num_rhs, num_equations], but the code transposes it before the four-operand check, so what is accepted is [..., num_equations, num_rhs]; the model follows the code.
- S3Filesystem: the AWS SDK is not modelled: the client, the executor and the transfer managers are flags and configurations, InitAPI, ShutdownAPI and the memory release of Cleanup are left out, and so are plugin registration (TF_InitPlugin, ProvideFilesystemSupportFor) and the plugin allocator; the writable file and memory region sections are empty in the source.
- S3Filesystem: environment variables, the region of the default profile in the AWS configuration file and the outcome of GetObject are parameters; GetDefaultClientConfig's once-only initialisation under a mutex, and locking in general, are not modelled beyond the lock-step traces of GetTransferManager.
- S3Filesystem.SimpleAtoiU64: only base 10 is modelled, which is the base the plugin uses.
- S3Filesystem.ReadS3Client: requires the response to hold no more than n bytes, as a server honouring the range does; the source copies the content length into the buffer without a bound. A failed outcome is taken to carry no content.
- S3Filesystem.ReadS3Client: the model sends the corrected request (the file's object as key, no request for zero bytes); the request as written is RequestAsWritten.
- S3Filesystem.Read: multi-part download is on unless switched off, and its read path is an unwritten stub in the source that returns -1 without setting a status; the model does the same.
- S3Filesystem.S3File.NewRandomAccessFile: the path is shown to join back from its bucket and object for paths shorter than npos, which every std::string is.
- CollectiveUtil: the timeout is taken to be a number or None; Python does not check its type and neither does the model.
- CollectiveAllReduceStrategy: the cluster resolver, the eager context, server start-up, collective keys, input pipelines, logging and configure are left out; the resolver is a record of the jobs, task type, task id, GPU count, worker count, id in cluster and chief flag it reports. TFConfigClusterResolver's separate GPU count is folded into that GPU count.
- CollectiveAllReduceStrategy: the health-check thread, the stop event, time.sleep and the barrier reduce are not modelled as concurrency. The thread body is the sequential loop CheckHealth over a function giving each probe's outcome, the stop event is a pass number, and the barrier is a flag saying whether it completed in time.
- CollectiveAllReduceStrategy.CheckHealth: the abort message text is reduced to the peer's name and the status code.
- CollectiveAllReduceStrategy.ReduceTo: the reduction itself is left out; the model says which path a value takes and with what argument.
- CollectiveAllReduceStrategy.InitialValuePlan: the initial value's conversion to a tensor and the collective instance keys are left out.
- SavedModelCli: showing, scanning, conversion, XLA compilation and run_saved_model_with_feed_dict are left out; they load and run saved models.
- SavedModelCli.ParseTensorName: Python's int() also accepts surrounding whitespace and underscores between digits; the model accepts an optional sign and decimal digits only.
- SavedModelCli.PreprocessInputExprsArgString: eval of each --input_exprs expression is not modelled; a value is the expression text (the --input_examples values are evaluated by a parameter). The model applies the '=' test to the segment (see Findings).
- SavedModelCli.ParsedExamples: eval of each --input_examples expression is a parameter giving a Python value, and its own errors are not modelled.
- SavedModelCli.FeatureOf: a serialised tf.Example is its list of features (name, list kind, values); protobuf's own TypeError when a list mixes value types, and the bytes of the serialisation, are not modelled.
- SavedModelCli.FeatureOf: a first element that is a str goes into bytes_list as the Python 2 byte strings the code was written for; under Python 3 protobuf rejects str in bytes_list with TypeError (for example `k=[{"f": ["x"]}]`), which the model does not raise.
- SavedModelCli.LoadErrorKinds: its set of errors (RuntimeError, ValueError, AttributeError, IndexError) leaves out the TypeError protobuf raises under Python 3 for a str feature value or a mixed list, see the two FeatureOf lines.
- SavedModelCli.LoadFileInput: np.load is a parameter giving a file's contents as a single array, an archive of named arrays, or a pickled object described by the keys `in` finds in it; a pickled object whose `in` test fails in another way is not modelled.
- TensorTracer: graph construction, trace-op insertion, printing, summary writing and the flags parser are left out. TensorTracerParameters is a record of the less-interesting-ops flag, the trace level, the op range and the stack size.
- TensorTracer.OpPriority: the op groups are modelled as lists; that no op type is in two groups is not proved.
- TensorTracer.CheckTraceMode: a trace mode is full_tensor_summary or another mode named by its string; the other mode constants are not part of this model.
- TensorTracer.FetchOps: a single fetch is taken to be already wrapped in a list.
- TensorTracer.FilterExecutionPathOperations: ops are numbered; Python set iteration order is not modelled (the path is a set).
- TensorTracer.GetDistanceKTensors: tensors are numbered, and each tensor's op inputs are a list of tensor numbers.
- SpecialMathOps: the einsum reductions and the exponential-space and opt_einsum paths are left out; they build tensors.
- SpecialMathOps.EinsumV1Parse: an input's rank is an optional natural number; the rest of the input shape is not used by the parser and is left out.
- SpecialMathOps.MatchSubscripts: Python's '$' also matches before a final newline, so an equation ending in "\n" matches; the model keeps that behaviour.
- SpecialMathOps.SortedAscii: sorting is modelled for ASCII characters only, which is all a match lets through.
- SpecialMathOps.V2Subscripts: the test for '...' looks at the equation before spaces are removed, as the source does; so ". . ." is not an ellipsis.
- SpecialMathOps.EinsumV2Parse: the source also writes the collapsed shapes back into the caller's input_shapes list; that in-place update is not modelled. np.prod in int64 may wrap; the model's product is unbounded.
- SpecialMathOps.TransposeIfNecessary: the transpose is a tensor constructor; the permutation must be a permutation of the tensor's axes, as array_ops.transpose demands.

## Findings

| source | as written | input that shows it | evidently intended | confidence | as-written member | corrected member |
|---|---|---|---|---|---|---|
| tensorflow/core/profiler/utils/event_span.cc:88-114 | a start boundary raises the current maximum priority to its type even when that type's open count is still not positive | the events (HOST_COMPUTE, 0..10) and (DEVICE_COMPUTE, 5..5): sorted boundaries put the zero-length event's end before its start, so the count of DEVICE_COMPUTE goes to -1 and back to 0, and the tracker then reports DEVICE_COMPUTE while only HOST_COMPUTE is open | the tracker reports the highest type with a positive open count | not executed | EventSpan.UpdateAsWritten (shown by EventSpan.ZeroLengthEventLeavesStalePriority) | EventSpan.PriorityTracker.Update |
| lib/IR/AffineExpr.cpp:158-167 | the largest known divisor of a floordiv or ceildiv, and the multiple-of test on one, use the gcd of the operands' divisors, which does not divide a quotient | (2 * d0) floordiv 4 at d0 = 2: the divisor is gcd(2, 4) = 2 and the test accepts factor 2, but the value is 1 | a quotient by a constant c has divisor l / abs(c) when abs(c) divides the dividend's divisor l, and 1 otherwise | not executed | AffineExpr.LargestKnownDivisorAsWritten, AffineExpr.IsMultipleOfAsWritten (shown by AffineExpr.QuotientDivisorAsWrittenIsUnsound) | AffineExpr.LargestKnownDivisor, AffineExpr.IsMultipleOf (proved by AffineExpr.LargestKnownDivisorSound, AffineExpr.IsMultipleOfSound) |
| lib/IR/Attributes.cpp:443-446 | the bounds check of getValue compares each dimension with the uint64 index cast to int64 | a one-dimensional attribute of 4 elements and index 2^63: the cast gives a negative number, the check passes and the linear index is far outside the data | an index is accepted only when it is below its dimension as an unsigned value | not executed | Attributes.AcceptedAsWritten (shown by Attributes.HugeIndexPassesCheck) | Attributes.GetValue |
| lib/IR/OperationSupport.cpp:108-117 | eraseOperand decrements the count and then rotates the range from the index up to the new count, which stops one short of the old end | operands [a, b], erase index 0: the range [0, 1) holds one element, nothing moves, and the slot of b is destroyed, leaving [a] | the range runs to the old end, so the erased operand reaches the destroyed slot and [b] remains | not executed | OperationSupport.OperandStorage.EraseOperandAsWritten (shown by OperationSupport.EraseFirstOfTwoAsWritten) | OperationSupport.OperandStorage.EraseOperand |
| lib/Transforms/Utils/LoopUtils.cpp:310-313 | the epilogue is unrolled when `!epilogue && epilogue != prologue` | a skew whose last generated loop has a single iteration (so it comes back null) and whose prologue exists: loopUnrollFull receives a null loop; with a real epilogue it is never unrolled | unroll the epilogue when it is non-null and differs from the prologue | not executed | LoopUtils.UnrollTargetsAsWritten (shown by LoopUtils.NullEpilogueUnrolledAsWritten) | LoopUtils.UnrollTargets |
| tensorflow/compiler/xla/python/pytree.cc:526 | `out_root.num_leaves *= inner_root.num_leaves` | composing a treedef that is a single leaf with the treedef of a pair of leaves: out_root is the copied inner root, so its count 2 is multiplied by itself and num_leaves reports 4 | the outer root's leaf count times the inner root's | not executed | Pytree.ComposeAsWritten (shown by Pytree.ComposeLeafWithPairAsWritten) | Pytree.Compose |
| tensorflow/compiler/xla/service/buffer_assignment.h:189-194 | `offset_ < other_end && end > other.offset_` | a zero-size slice at offset 5 and the slice [0, 10) of the same allocation: both comparisons hold and OverlapsWith returns true, while the documented result is false because the intersection of the ranges is empty | true only when the two byte ranges share a byte, i.e. also requiring both sizes to be positive | not executed; the code may be deliberately conservative | BufferAssignment.OverlapsWith (shown by BufferAssignment.EmptySliceOverlapsAsWritten) | BufferAssignment.RangesIntersect |
| tensorflow/compiler/mlir/tensorflow/analysis/resource_alias_analysis.cc:265-276 | `forward_input_to_output` inserts the operand's ids into the result's id set only | a VarHandleOp result v0 with id 0 forwarded through an Identity to v1: v1's ids are {0}, but id 0's values stay {v0}, so GetResourceAliases(v0) leaves out v1 | the result is recorded under each forwarded id as well, as AddValueUniqueIDMapping does | not executed; AddValueUniqueIDMapping is taken to record both directions | ResourceAliasAnalysis.ForwardAsWritten (shown by ResourceAliasAnalysis.ForwardAsWrittenMissesAlias) | ResourceAliasAnalysis.Forward (proved by ResourceAliasAnalysis.ForwardedIsAlias) |
| tensorflow/compiler/mlir/tensorflow/analysis/resource_alias_analysis.cc:351-359 | IsUnknownResource compares `*begin()` of the id set with the unknown id, relying on the comment that the set is sorted; the set is an llvm::SmallSet<int64_t, 8>, whose first eight ids sit in a vector in insertion order | an If result whose then-input has id 3 and whose else-input is the result of an unknown op: forwarding inserts 3 and then -1, *begin() is 3, and the resource is reported known although it may alias anything | a resource is unknown when the unknown id is among its ids, whatever the insertion order | not executed; the SmallSet layout is taken from LLVM's SmallSet, which is not part of this model | ResourceAliasAnalysis.IsUnknownAsWritten (shown by ResourceAliasAnalysis.LateUnknownMissedAsWritten, characterised by ResourceAliasAnalysis.AsWrittenUnknownIff) | ResourceAliasAnalysis.IsUnknownResource (proved by ResourceAliasAnalysis.IsUnknownIff) |
| tensorflow/lite/micro/kernels/reduce.cc:108-118, tensorflow/lite/micro/kernels/reduce.cc:128-142 | EvalMean passes the axis tensor's element count to ResolveAxis unchecked, and ResolveAxis writes one int16 slot per axis into the four-slot MeanParams::axis array | an axis tensor of five elements: the first loop writes axis[4], past the array, before the count is checked against 2 | more than four axes are rejected before they are resolved (the count must be 2 for Mean to succeed anyway) | not executed | MicroReduce.SlotsWritten (shown by MicroReduce.FiveAxesOverflow) | MicroReduce.EvalMean (with MicroReduce.ResolveAxis requiring at most four axes) |
| tensorflow/c/eager/dlpack.cc:267-275 | IsValidStrideCompactRowMajorData checks that each stride is the next dimension times the next stride, but never that the last stride is 1 | shape [2, 3] with strides [6, 2], a view that takes every second element of each row: the check passes and the data is imported as if it were compact | strides are accepted only when they are the compact row-major strides, so the last stride must also be 1 | not executed | Dlpack.IsValidStrideCompactRowMajorData (shown by Dlpack.StrideCheckAcceptsNonCompact) | Dlpack.IsCompactRowMajorData (proved by Dlpack.RowMajorStridesExact) |
| tensorflow/compiler/xla/client/lib/tridiagonal.cc:209-213 | the packed ThomasSolver builds a vector of rank entries and writes entries rank - 2 and rank - 1 before any check of the rank | diagonals of rank 1: entry -1 of a one-entry vector is written; for rank 0 entries -2 and -1 of an empty vector | diagonals of rank below 2 are rejected with InvalidArgument before the transpose order is built, as the four-operand check would reject them | not executed | Tridiagonal.TransposeOrderWrites (shown by Tridiagonal.RankOneWritesOutOfBounds) | Tridiagonal.PackedSystemShape (proved by Tridiagonal.PackedShapeAccepted) |
| tensorflow/c/experimental/filesystem/plugins/s3/s3_filesystem.cc:252 | ReadS3Client sets the GetObject key from the bucket's name | reading s3://b/o fetches the object named "b" | the key is the file's object | not executed | S3Filesystem.RequestAsWritten (shown by S3Filesystem.RequestAsWrittenMisses) | S3Filesystem.Request (proved by S3Filesystem.RequestTargetsFile) |
| tensorflow/c/experimental/filesystem/plugins/s3/s3_filesystem.cc:253-255 | the last byte of the range is offset + n - 1 in uint64 arithmetic, also for n = 0 | a read of zero bytes at offset 0 asks for bytes=0-18446744073709551615, the whole object, whose content length is then copied into a buffer of zero bytes | a read of zero bytes sends no request | not executed | S3Filesystem.RequestAsWritten (shown by S3Filesystem.RequestAsWrittenMisses) | S3Filesystem.Request (proved by S3Filesystem.RequestTargetsFile) |
| tensorflow/c/experimental/filesystem/plugins/s3/s3_filesystem.cc:206-213 | GetTransferManager holds initialization_lock while it calls GetS3Client and GetExecutor, which lock the same absl::Mutex | the first NewRandomAccessFile: no download manager exists yet, so the thread locks the mutex it already holds and waits for itself | obtain the client and the executor before taking the mutex | not executed | S3Filesystem.GetTransferManagerStepsAsWritten (shown by S3Filesystem.FirstTransferManagerRelocks) | S3Filesystem.GetTransferManagerSteps (proved by S3Filesystem.TransferManagerNeverRelocks), the order S3Filesystem.S3File.GetTransferManager follows |
| tensorflow/python/tools/saved_model_cli.py:682-686 | preprocess_input_exprs_arg_string tests for '=' in the whole argument instead of in the segment | "a=1;b": the argument has an '=', so the segment "b" reaches the two-way unpacking of split('=', 1) and raises ValueError instead of the RuntimeError that reports the bad format | each segment without '=' raises RuntimeError | not executed | SavedModelCli.ParsedExprsAsWritten (shown by SavedModelCli.ExprsAsWrittenMisreports) | SavedModelCli.ParsedExprs (proved by SavedModelCli.ExprsErrorIff) |
| tensorflow/python/ops/special_math_ops.py:358-386 | the v1 parser refuses periods outside an ellipsis only when the equation contains '...' | "a.b->ab" with one rank-3 input: the pattern allows '.', there is no ellipsis, so '.' becomes an axis label, which is summed away | a period outside an ellipsis is refused in every equation, as the error message says | not executed | SpecialMathOps.EinsumV1Parse with rejectStrayPeriods false (shown by SpecialMathOps.V1StrayPeriodAccepted) | SpecialMathOps.EinsumV1ParseAndResolveEquation (proved by SpecialMathOps.V1NoStrayPeriods) |
