// BufferAssignment: the flags of a buffer allocation and the predicates
// derived from them, and slices of an allocation with their equality,
// order and overlap test.
module BufferAssignment {
  import opened Common

  /** A buffer allocation, reduced to its identity and its flags; the
      assigned buffers, heap traces and peak-memory bookkeeping are not
      part of the model. */
  datatype Allocation = Allocation(
    index: int,
    size: int,
    color: int,
    isThreadLocal: bool,
    isTuple: bool,
    isEntryComputationParameter: bool,
    isParameterAliasedWithOutput: bool,
    parameterNumber: int,
    paramShapeIndex: seq<int>,
    maybeLiveOut: bool,
    isConstant: bool)

  /** A new allocation: every flag off, parameter number 0. */
  function NewAllocation(index: int, size: int, color: int): (r: Allocation)
    ensures r.index == index && r.size == size && r.color == color
    ensures IsReusable(r) && IsPreallocatedTempBuffer(r)
    ensures !IsReadonly(r) && !IsInputOrOutput(r)
  {
    Allocation(index, size, color, false, false, false, false, 0, [], false, false)
  }

  // ---------------------------------------------------------------------
  // Predicates

  /** Thread-local and tuple allocations are not reused. */
  predicate IsReusable(a: Allocation)
  {
    !a.isThreadLocal && !a.isTuple
  }

  /** Entry parameters not aliased with an output, and constants, live in
      memory that is not written. */
  predicate IsReadonly(a: Allocation)
  {
    (a.isEntryComputationParameter && !a.isParameterAliasedWithOutput) || a.isConstant
  }

  predicate IsInputOrOutput(a: Allocation)
  {
    a.isEntryComputationParameter || a.maybeLiveOut
  }

  /** Allocated before execution as scratch: not a parameter, not live
      out, not thread-local (those use alloca), not a constant (those are
      globals). */
  predicate IsPreallocatedTempBuffer(a: Allocation)
  {
    !a.isEntryComputationParameter && !a.maybeLiveOut && !a.isThreadLocal && !a.isConstant
  }

  /** parameter_number() CHECKs that the allocation holds a parameter. */
  function ParameterNumber(a: Allocation): (r: Option<int>)
    ensures r.Some? <==> a.isEntryComputationParameter
    ensures r.Some? ==> r.value == a.parameterNumber
  {
    if a.isEntryComputationParameter then Some(a.parameterNumber) else None
  }

  /** param_shape_index() CHECKs likewise. */
  function ParamShapeIndex(a: Allocation): (r: Option<seq<int>>)
    ensures r.Some? <==> a.isEntryComputationParameter
    ensures r.Some? ==> r.value == a.paramShapeIndex
  {
    if a.isEntryComputationParameter then Some(a.paramShapeIndex) else None
  }

  /** A preallocated temporary buffer is neither an input nor an output,
      and is never read-only. */
  lemma PreallocatedTempIsInternal(a: Allocation)
    requires IsPreallocatedTempBuffer(a)
    ensures !IsInputOrOutput(a) && !IsReadonly(a)
  {
  }

  /** The four ways an allocation can fail to be a preallocated temporary
      buffer are exactly its four flags. */
  lemma NotPreallocatedTemp(a: Allocation)
    ensures !IsPreallocatedTempBuffer(a) <==>
      IsInputOrOutput(a) || a.isThreadLocal || a.isConstant
  {
  }

  /** A read-only allocation that is not a constant is an input. */
  lemma ReadonlyNonConstantIsInput(a: Allocation)
    requires IsReadonly(a) && !a.isConstant
    ensures IsInputOrOutput(a) && a.isEntryComputationParameter && !a.isParameterAliasedWithOutput
  {
  }

  // ---------------------------------------------------------------------
  // Setters: each changes its own fields only

  function SetIsThreadLocal(a: Allocation, value: bool): (r: Allocation)
    ensures r == a.(isThreadLocal := value)
    ensures value ==> !IsReusable(r) && !IsPreallocatedTempBuffer(r)
    ensures IsReadonly(r) == IsReadonly(a) && IsInputOrOutput(r) == IsInputOrOutput(a)
  {
    a.(isThreadLocal := value)
  }

  function SetIsTuple(a: Allocation, value: bool): (r: Allocation)
    ensures r == a.(isTuple := value)
    ensures value ==> !IsReusable(r)
    ensures IsPreallocatedTempBuffer(r) == IsPreallocatedTempBuffer(a)
    ensures IsReadonly(r) == IsReadonly(a) && IsInputOrOutput(r) == IsInputOrOutput(a)
  {
    a.(isTuple := value)
  }

  /** set_entry_computation_parameter: the allocation becomes a parameter;
      it is read-only unless aliased with an output (or a constant). */
  function SetEntryComputationParameter(a: Allocation, parameterNumber: int, paramShapeIndex: seq<int>,
                                        aliasedWithOutput: bool): (r: Allocation)
    ensures r == a.(isEntryComputationParameter := true, isParameterAliasedWithOutput := aliasedWithOutput,
                    parameterNumber := parameterNumber, paramShapeIndex := paramShapeIndex)
    ensures IsInputOrOutput(r) && !IsPreallocatedTempBuffer(r)
    ensures IsReadonly(r) <==> !aliasedWithOutput || a.isConstant
    ensures ParameterNumber(r) == Some(parameterNumber) && ParamShapeIndex(r) == Some(paramShapeIndex)
    ensures IsReusable(r) == IsReusable(a)
  {
    a.(isEntryComputationParameter := true, isParameterAliasedWithOutput := aliasedWithOutput,
       parameterNumber := parameterNumber, paramShapeIndex := paramShapeIndex)
  }

  function SetConstant(a: Allocation, value: bool): (r: Allocation)
    ensures r == a.(isConstant := value)
    ensures value ==> IsReadonly(r) && !IsPreallocatedTempBuffer(r)
    ensures IsReusable(r) == IsReusable(a) && IsInputOrOutput(r) == IsInputOrOutput(a)
  {
    a.(isConstant := value)
  }

  function SetMaybeLiveOut(a: Allocation, value: bool): (r: Allocation)
    ensures r == a.(maybeLiveOut := value)
    ensures value ==> IsInputOrOutput(r) && !IsPreallocatedTempBuffer(r)
    ensures IsReusable(r) == IsReusable(a) && IsReadonly(r) == IsReadonly(a)
  {
    a.(maybeLiveOut := value)
  }

  /** set_index and set_size touch no flag, so no predicate changes. */
  function SetIndex(a: Allocation, index: int): (r: Allocation)
    ensures r == a.(index := index)
    ensures IsReusable(r) == IsReusable(a) && IsReadonly(r) == IsReadonly(a)
    ensures IsInputOrOutput(r) == IsInputOrOutput(a) && IsPreallocatedTempBuffer(r) == IsPreallocatedTempBuffer(a)
  {
    a.(index := index)
  }

  function SetSize(a: Allocation, size: int): (r: Allocation)
    ensures r == a.(size := size) && AllocationEq(r, a)
    ensures IsReusable(r) == IsReusable(a) && IsReadonly(r) == IsReadonly(a)
    ensures IsInputOrOutput(r) == IsInputOrOutput(a) && IsPreallocatedTempBuffer(r) == IsPreallocatedTempBuffer(a)
  {
    a.(size := size)
  }

  // ---------------------------------------------------------------------
  // Allocation identity

  /** Allocations compare by index alone. */
  predicate AllocationEq(a: Allocation, b: Allocation)
  {
    a.index == b.index
  }

  predicate AllocationLess(a: Allocation, b: Allocation)
  {
    a.index < b.index
  }

  /** The order on allocations is a strict weak order whose equivalence is
      AllocationEq: exactly one of a < b, a == b, b < a holds, and only
      the index matters. */
  lemma AllocationOrder(a: Allocation, b: Allocation, c: Allocation)
    ensures !AllocationLess(a, a)
    ensures AllocationLess(a, b) && AllocationLess(b, c) ==> AllocationLess(a, c)
    ensures AllocationEq(a, b) <==> !AllocationLess(a, b) && !AllocationLess(b, a)
    ensures AllocationEq(a, b) ==> AllocationEq(a, b.(size := a.size, isConstant := a.isConstant, isTuple := a.isTuple))
  {
  }

  // ---------------------------------------------------------------------
  // Slices

  /** A contiguous byte range [offset, offset + size) of the allocation
      with the given index. */
  datatype Slice = Slice(index: int, offset: int, size: int)

  /** The slice of an allocation. */
  function SliceOf(a: Allocation, offset: int, size: int): (r: Slice)
    ensures r.index == a.index && r.offset == offset && r.size == size
  {
    Slice(a.index, offset, size)
  }

  predicate SliceEq(a: Slice, b: Slice)
  {
    a.index == b.index && a.offset == b.offset && a.size == b.size
  }

  /** Lexicographic on (index, offset, size). */
  predicate SliceLess(a: Slice, b: Slice)
  {
    if a.index != b.index then a.index < b.index
    else if a.offset != b.offset then a.offset < b.offset
    else a.size < b.size
  }

  /** The half-open ranges intersect within the same allocation. */
  predicate OverlapsWith(a: Slice, b: Slice)
  {
    var end := a.offset + a.size;
    var otherEnd := b.offset + b.size;
    a.index == b.index && a.offset < otherEnd && end > b.offset
  }

  /** A byte of the allocation the slice covers. */
  predicate Covers(s: Slice, index: int, offset: int)
  {
    s.index == index && s.offset <= offset < s.offset + s.size
  }

  /** Slice equality is equality of the three fields it compares. */
  lemma SliceEqIsIdentity(a: Slice, b: Slice)
    ensures SliceEq(a, b) <==> a == b
  {
  }

  /** The slice order is a strict total order: irreflexive, transitive, and
      for every two slices exactly one of a < b, a == b, b < a holds. */
  lemma SliceOrder(a: Slice, b: Slice, c: Slice)
    ensures !SliceLess(a, a)
    ensures SliceLess(a, b) && SliceLess(b, c) ==> SliceLess(a, c)
    ensures SliceLess(a, b) ==> !SliceLess(b, a)
    ensures SliceEq(a, b) <==> !SliceLess(a, b) && !SliceLess(b, a)
  {
  }

  /** For slices of at least one byte each, the overlap test holds
      exactly when some byte of one allocation lies in both. */
  lemma OverlapsIffSharedByte(a: Slice, b: Slice)
    requires a.size > 0 && b.size > 0
    ensures OverlapsWith(a, b) <==> exists x :: Covers(a, a.index, x) && Covers(b, a.index, x)
  {
    if OverlapsWith(a, b) {
      var x := Max(a.offset, b.offset);
      assert Covers(a, a.index, x) && Covers(b, a.index, x);
    }
  }

  /** Overlap is symmetric. */
  lemma OverlapsSymmetric(a: Slice, b: Slice)
    ensures OverlapsWith(a, b) <==> OverlapsWith(b, a)
  {
  }

  /** Slices of different allocations never overlap. */
  lemma NoOverlapAcrossAllocations(a: Slice, b: Slice)
    requires a.index != b.index
    ensures !OverlapsWith(a, b)
  {
  }

  /** The test as written reports an empty slice strictly inside another as
      overlapping it, although their intersection is empty. */
  lemma EmptySliceOverlapsAsWritten()
    ensures OverlapsWith(Slice(0, 5, 0), Slice(0, 0, 10))
    ensures !exists x :: Covers(Slice(0, 5, 0), 0, x) && Covers(Slice(0, 0, 10), 0, x)
  {
  }

  /** The overlap the documentation describes: a non-empty intersection of
      the two byte ranges. */
  predicate RangesIntersect(a: Slice, b: Slice)
  {
    OverlapsWith(a, b) && a.size > 0 && b.size > 0
  }

  /** RangesIntersect holds exactly when some byte lies in both slices,
      for every pair of slices. */
  lemma RangesIntersectIffSharedByte(a: Slice, b: Slice)
    ensures RangesIntersect(a, b) <==> exists x :: Covers(a, a.index, x) && Covers(b, a.index, x)
  {
    if RangesIntersect(a, b) {
      OverlapsIffSharedByte(a, b);
    }
    if exists x :: Covers(a, a.index, x) && Covers(b, a.index, x) {
      var x :| Covers(a, a.index, x) && Covers(b, a.index, x);
      OverlapsIffSharedByte(a, b);
    }
  }

  /** RangesIntersect is symmetric, never holds across allocations, and
      agrees with the test as written on slices of at least one byte. */
  lemma RangesIntersectProperties(a: Slice, b: Slice)
    ensures RangesIntersect(a, b) <==> RangesIntersect(b, a)
    ensures a.index != b.index ==> !RangesIntersect(a, b)
    ensures a.size > 0 && b.size > 0 ==> (RangesIntersect(a, b) <==> OverlapsWith(a, b))
  {
  }
}
