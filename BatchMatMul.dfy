// The optimized float BatchMatMul of TFLite: both shapes are extended to
// rank 5, the three leading dimensions are batch dimensions broadcast
// against each other, and one GEMM runs per batch triple on the trailing
// rows x depth and depth x cols matrices. The GEMM itself is abstract: the
// model records the matrix parameters and the data offsets of each call.
module BatchMatMul {
  import opened Common

  // ---------------------------------------------------------------------
  // Shapes
  // ---------------------------------------------------------------------

  /** RuntimeShape::ExtendedShape: leading 1s up to newSize dimensions. */
  function ExtendedShape(newSize: nat, dims: seq<int>): (r: seq<int>)
    requires |dims| <= newSize
    ensures |r| == newSize
  {
    Ones(newSize - |dims|) + dims
  }

  /** Extending keeps the dims as the trailing part, pads with ones, and
      leaves the element count unchanged. */
  lemma ExtendedShapeKeepsDims(newSize: nat, dims: seq<int>)
    requires |dims| <= newSize
    ensures ExtendedShape(newSize, dims)[newSize - |dims|..] == dims
    ensures forall i :: 0 <= i < newSize - |dims| ==> ExtendedShape(newSize, dims)[i] == 1
    ensures Product(ExtendedShape(newSize, dims)) == Product(dims)
  {
    LeadingOnesKeepProduct(newSize - |dims|, dims);
  }

  lemma {:induction false} LeadingOnesKeepProduct(k: nat, dims: seq<int>)
    ensures Product(Ones(k) + dims) == Product(dims)
  {
    if k > 0 {
      var r := Ones(k) + dims;
      assert Ones(k) == [1] + Ones(k - 1);
      assert r == [1] + (Ones(k - 1) + dims);
      assert r[1..] == Ones(k - 1) + dims;
      LeadingOnesKeepProduct(k - 1, dims);
      assert Product(r) == r[0] * Product(r[1..]);
    } else {
      assert Ones(k) + dims == dims;
    }
  }

  /** broadcast_dim: the common dimension, or the other one when one side
      is 1 (the debug check demands rhs be 1 when the sides differ and lhs
      is not 1). */
  function BroadcastDim(lhsDim: int, rhsDim: int): int
    requires lhsDim == rhsDim || lhsDim == 1 || rhsDim == 1
  {
    if lhsDim == rhsDim then lhsDim
    else if lhsDim == 1 then rhsDim
    else lhsDim
  }

  /** Each side is the broadcast dimension or 1; for positive sides it is
      the larger one. */
  lemma BroadcastDimIsCommon(lhsDim: int, rhsDim: int)
    requires lhsDim == rhsDim || lhsDim == 1 || rhsDim == 1
    ensures lhsDim == BroadcastDim(lhsDim, rhsDim) || lhsDim == 1
    ensures rhsDim == BroadcastDim(lhsDim, rhsDim) || rhsDim == 1
    ensures lhsDim >= 1 && rhsDim >= 1 ==> BroadcastDim(lhsDim, rhsDim) == Max(lhsDim, rhsDim)
  {
  }

  /** The extent of dimension x: how far one step along it moves in the
      data, 0 for a broadcast (size 1) dimension. */
  function ExtentOf(shape: seq<int>, x: int): int
    requires 0 <= x < |shape|
  {
    if shape[x] == 1 then 0 else Product(shape[x + 1..])
  }

  /** extent: the product of the later dimensions, by a loop. */
  method Extent(shape: seq<int>, x: int) returns (r: int)
    requires 0 <= x < |shape|
    ensures r == ExtentOf(shape, x)
  {
    if shape[x] == 1 {
      return 0;
    }
    var prod := 1;
    var i := x + 1;
    while i < |shape|
      invariant x + 1 <= i <= |shape|
      invariant prod == Product(shape[x + 1..i])
    {
      ProductAppend(shape[x + 1..i], shape[i]);
      assert shape[x + 1..i + 1] == shape[x + 1..i] + [shape[i]];
      prod := prod * shape[i];
      i := i + 1;
    }
    assert shape[x + 1..i] == shape[x + 1..];
    return prod;
  }

  /** A dimension that is not broadcast is stepped by the row-major stride:
      its extent times its size is the element count from it onwards. */
  lemma ExtentIsStride(shape: seq<int>, x: int)
    requires 0 <= x < |shape| && shape[x] != 1
    ensures ExtentOf(shape, x) * shape[x] == Product(shape[x..])
  {
    assert shape[x..][1..] == shape[x + 1..];
  }

  // ---------------------------------------------------------------------
  // The batch loops
  // ---------------------------------------------------------------------

  datatype Order = RowMajor | ColMajor
  datatype MatrixParams = MatrixParams(order: Order, rows: int, cols: int)

  /** One GEMM call: where its LHS and RHS matrices start and where its
      output block starts, as offsets into the three data buffers. */
  datatype GemmCall = GemmCall(lhsOffset: int, rhsOffset: int, outOffset: int)

  /** The loop bounds and steps BatchMatMul derives from the two extended
      shapes. */
  datatype Plan = Plan(
    d0: int, d1: int, d2: int,
    lhsExt0: int, lhsExt1: int, lhsExt2: int,
    rhsExt0: int, rhsExt1: int, rhsExt2: int,
    rows: int, cols: int)

  /** The call for batch triple (b0, b1, b2). */
  function Call(p: Plan, b0: int, b1: int, b2: int): GemmCall
  {
    GemmCall(b0 * p.lhsExt0 + b1 * p.lhsExt1 + b2 * p.lhsExt2,
             b0 * p.rhsExt0 + b1 * p.rhsExt1 + b2 * p.rhsExt2,
             ((b0 * p.d1 * p.d2) + b1 * p.d2 + b2) * p.rows * p.cols)
  }

  /** The calls of the innermost loop for b2 below n, in order. */
  function Calls2(p: Plan, b0: int, b1: int, n: int): seq<GemmCall>
    decreases n
  {
    if n <= 0 then [] else Calls2(p, b0, b1, n - 1) + [Call(p, b0, b1, n - 1)]
  }

  /** The calls of the middle loop for b1 below n, in order. */
  function Calls1(p: Plan, b0: int, n: int): seq<GemmCall>
    decreases n
  {
    if n <= 0 then [] else Calls1(p, b0, n - 1) + Calls2(p, b0, n - 1, p.d2)
  }

  /** The calls of the outer loop for b0 below n, in order. */
  function Calls0(p: Plan, n: int): seq<GemmCall>
    decreases n
  {
    if n <= 0 then [] else Calls0(p, n - 1) + Calls1(p, n - 1, p.d1)
  }

  /** What the source leaves to its debug check: each batch dimension
      agrees or one side is 1. */
  predicate Broadcastable(lhs: seq<int>, rhs: seq<int>)
    requires |lhs| == 5 && |rhs| == 5
  {
    forall i :: 0 <= i < 3 ==> lhs[i] == rhs[i] || lhs[i] == 1 || rhs[i] == 1
  }

  /** The plan of the two extended shapes. */
  function PlanOf(lhs: seq<int>, rhs: seq<int>): Plan
    requires |lhs| == 5 && |rhs| == 5 && Broadcastable(lhs, rhs)
  {
    Plan(BroadcastDim(lhs[0], rhs[0]), BroadcastDim(lhs[1], rhs[1]), BroadcastDim(lhs[2], rhs[2]),
         ExtentOf(lhs, 0), ExtentOf(lhs, 1), ExtentOf(lhs, 2),
         ExtentOf(rhs, 0), ExtentOf(rhs, 1), ExtentOf(rhs, 2),
         lhs[3], rhs[4])
  }

  /** The innermost loop of BatchMatMul: the GEMM calls for b2 below d2,
      appended to calls in order. */
  method AppendRow(calls: seq<GemmCall>, p: Plan, b0: int, b1: int, lhsPtr1: int, rhsPtr1: int)
    returns (calls': seq<GemmCall>)
    requires lhsPtr1 == b0 * p.lhsExt0 + b1 * p.lhsExt1
    requires rhsPtr1 == b0 * p.rhsExt0 + b1 * p.rhsExt1
    ensures calls' == calls + Calls2(p, b0, b1, p.d2)
  {
    calls' := calls;
    var b2 := 0;
    while b2 < p.d2
      invariant b2 <= p.d2 || b2 == 0
      invariant calls' == calls + Calls2(p, b0, b1, b2)
    {
      var lhsPtr2, rhsPtr2 := lhsPtr1 + b2 * p.lhsExt2, rhsPtr1 + b2 * p.rhsExt2;
      var outPtr := ((b0 * p.d1 * p.d2) + b1 * p.d2 + b2) * p.rows * p.cols;
      calls' := calls' + [GemmCall(lhsPtr2, rhsPtr2, outPtr)];
      b2 := b2 + 1;
    }
  }

  /** The middle loop of BatchMatMul: the GEMM calls for b1 below d1,
      appended to calls in order. */
  method AppendBatch(calls: seq<GemmCall>, p: Plan, b0: int, lhsPtr0: int, rhsPtr0: int)
    returns (calls': seq<GemmCall>)
    requires lhsPtr0 == b0 * p.lhsExt0 && rhsPtr0 == b0 * p.rhsExt0
    ensures calls' == calls + Calls1(p, b0, p.d1)
  {
    calls' := calls;
    var b1 := 0;
    while b1 < p.d1
      invariant b1 <= p.d1 || b1 == 0
      invariant calls' == calls + Calls1(p, b0, b1)
    {
      var lhsPtr1, rhsPtr1 := lhsPtr0 + b1 * p.lhsExt1, rhsPtr0 + b1 * p.rhsExt1;
      calls' := AppendRow(calls', p, b0, b1, lhsPtr1, rhsPtr1);
      b1 := b1 + 1;
    }
  }

  /** BatchMatMul: the matrix parameters of the GEMMs and the calls it makes,
      in loop order. LHS is rows x depth row-major from dims 3 and 4, RHS is
      depth x cols column-major, the output rows x cols column-major; the
      calls are those of the plan of the two extended shapes. */
  method BatchMatMul(lhsShape: seq<int>, rhsShape: seq<int>)
    returns (lhsParams: MatrixParams, rhsParams: MatrixParams, dstParams: MatrixParams, calls: seq<GemmCall>)
    requires |lhsShape| <= 5 && |rhsShape| <= 5
    requires Broadcastable(ExtendedShape(5, lhsShape), ExtendedShape(5, rhsShape))
    ensures var lhs, rhs := ExtendedShape(5, lhsShape), ExtendedShape(5, rhsShape);
            lhsParams == MatrixParams(RowMajor, lhs[3], lhs[4]) &&
            rhsParams == MatrixParams(ColMajor, lhs[4], rhs[4]) &&
            dstParams == MatrixParams(ColMajor, lhs[3], rhs[4])
    ensures var p := PlanOf(ExtendedShape(5, lhsShape), ExtendedShape(5, rhsShape));
            calls == Calls0(p, p.d0)
  {
    var lhs := ExtendedShape(5, lhsShape);
    var rhs := ExtendedShape(5, rhsShape);
    var batchDim0 := BroadcastDim(lhs[0], rhs[0]);
    var batchDim1 := BroadcastDim(lhs[1], rhs[1]);
    var batchDim2 := BroadcastDim(lhs[2], rhs[2]);
    var lhsExt0 := Extent(lhs, 0);
    var lhsExt1 := Extent(lhs, 1);
    var lhsExt2 := Extent(lhs, 2);
    var rhsExt0 := Extent(rhs, 0);
    var rhsExt1 := Extent(rhs, 1);
    var rhsExt2 := Extent(rhs, 2);
    var lhsRows, rhsCols, accumDepth := lhs[3], rhs[4], lhs[4];
    lhsParams := MatrixParams(RowMajor, lhsRows, accumDepth);
    rhsParams := MatrixParams(ColMajor, accumDepth, rhsCols);
    dstParams := MatrixParams(ColMajor, lhsRows, rhsCols);
    var p := Plan(batchDim0, batchDim1, batchDim2, lhsExt0, lhsExt1, lhsExt2,
                  rhsExt0, rhsExt1, rhsExt2, lhsRows, rhsCols);
    assert p == PlanOf(lhs, rhs);
    calls := [];
    var b0 := 0;
    while b0 < batchDim0
      invariant b0 <= batchDim0 || b0 == 0
      invariant calls == Calls0(p, b0)
    {
      var lhsPtr0, rhsPtr0 := b0 * lhsExt0, b0 * rhsExt0;
      calls := AppendBatch(calls, p, b0, lhsPtr0, rhsPtr0);
      b0 := b0 + 1;
    }
  }

  // ---------------------------------------------------------------------
  // What the calls cover
  // ---------------------------------------------------------------------

  /** b * m + r for 0 <= b < n and 0 <= r < m lies in [0, n * m), below the
      start (b + 1) * m of the next stride. */
  lemma MixedRadixBound(b: int, n: int, m: int, r: int)
    requires 0 <= b < n && 0 <= r < m
    ensures 0 <= b * m && b * m + r < (b + 1) * m <= n * m
  {
    MulMonotone(b, 0, m);
    MulMonotone(n, b + 1, m);
  }

  /** Mixed-radix digits are unique. */
  lemma MixedRadixUnique(b: int, r: int, c: int, s: int, m: int)
    requires 0 <= r < m && 0 <= s < m && b * m + r == c * m + s
    ensures b == c && r == s
  {
    DivModUnique(b * m + r, m, b, r);
    DivModUnique(c * m + s, m, c, s);
  }

  /** The index of a batch triple in loop order. */
  function BlockIndex(p: Plan, b0: int, b1: int, b2: int): int
  {
    (b0 * p.d1 + b1) * p.d2 + b2
  }

  lemma {:induction false} Calls2Length(p: Plan, b0: int, b1: int, n: nat)
    ensures |Calls2(p, b0, b1, n)| == n
  {
    if n > 0 {
      Calls2Length(p, b0, b1, n - 1);
    }
  }

  lemma {:induction false} Calls2At(p: Plan, b0: int, b1: int, n: nat, b2: int)
    requires 0 <= b2 < n
    ensures |Calls2(p, b0, b1, n)| == n
    ensures Calls2(p, b0, b1, n)[b2] == Call(p, b0, b1, b2)
  {
    Calls2Length(p, b0, b1, n);
    Calls2Length(p, b0, b1, n - 1);
    if b2 < n - 1 {
      Calls2At(p, b0, b1, n - 1, b2);
    }
  }

  lemma {:induction false} Calls1Length(p: Plan, b0: int, n: nat)
    requires p.d2 >= 0
    ensures |Calls1(p, b0, n)| == n * p.d2
  {
    if n > 0 {
      Calls1Length(p, b0, n - 1);
      Calls2Length(p, b0, n - 1, p.d2);
      assert (n - 1) * p.d2 + p.d2 == n * p.d2;
    }
  }

  lemma {:induction false} Calls1At(p: Plan, b0: int, n: nat, b1: int, b2: int)
    requires 0 <= b1 < n && 0 <= b2 < p.d2
    ensures 0 <= b1 * p.d2 + b2 < |Calls1(p, b0, n)|
    ensures Calls1(p, b0, n)[b1 * p.d2 + b2] == Call(p, b0, b1, b2)
  {
    Calls1Length(p, b0, n - 1);
    Calls2Length(p, b0, n - 1, p.d2);
    StrideAt(Calls1(p, b0, n - 1), Calls2(p, b0, n - 1, p.d2), n, b1, p.d2, b2);
    if b1 < n - 1 {
      Calls1At(p, b0, n - 1, b1, b2);
    } else {
      Calls2At(p, b0, n - 1, p.d2, b2);
    }
  }

  /** Indexing the concatenation of n - 1 strides of m and one more stride:
      digit b below n - 1 falls in the first part, digit n - 1 in the last. */
  lemma StrideAt<T>(prev: seq<T>, last: seq<T>, n: int, b: int, m: int, r: int)
    requires 0 <= b < n && 0 <= r < m && |prev| == (n - 1) * m && |last| == m
    ensures 0 <= b * m + r < |prev + last|
    ensures b < n - 1 ==> b * m + r < |prev| && (prev + last)[b * m + r] == prev[b * m + r]
    ensures b == n - 1 ==> (prev + last)[b * m + r] == last[r]
  {
    MixedRadixBound(b, n, m, r);
    if b < n - 1 {
      MixedRadixBound(b, n - 1, m, r);
    }
  }

  lemma {:induction false} Calls0Length(p: Plan, n: nat)
    requires p.d1 >= 0 && p.d2 >= 0
    ensures |Calls0(p, n)| == n * (p.d1 * p.d2)
  {
    if n > 0 {
      Calls0Length(p, n - 1);
      Calls1Length(p, n - 1, p.d1);
      assert (n - 1) * (p.d1 * p.d2) + p.d1 * p.d2 == n * (p.d1 * p.d2);
    }
  }

  lemma {:induction false} Calls0At(p: Plan, n: nat, b0: int, b1: int, b2: int)
    requires 0 <= b0 < n && 0 <= b1 < p.d1 && 0 <= b2 < p.d2
    ensures 0 <= b0 * (p.d1 * p.d2) + (b1 * p.d2 + b2) < |Calls0(p, n)|
    ensures Calls0(p, n)[b0 * (p.d1 * p.d2) + (b1 * p.d2 + b2)] == Call(p, b0, b1, b2)
  {
    MixedRadixBound(b1, p.d1, p.d2, b2);
    Calls0Length(p, n - 1);
    Calls1Length(p, n - 1, p.d1);
    StrideAt(Calls0(p, n - 1), Calls1(p, n - 1, p.d1), n, b0, p.d1 * p.d2, b1 * p.d2 + b2);
    if b0 < n - 1 {
      Calls0At(p, n - 1, b0, b1, b2);
    } else {
      Calls1At(p, n - 1, p.d1, b1, b2);
    }
  }

  /** The loop-order index in the two-level form the loops produce. */
  lemma BlockIndexSplit(p: Plan, b0: int, b1: int, b2: int)
    ensures BlockIndex(p, b0, b1, b2) == b0 * (p.d1 * p.d2) + (b1 * p.d2 + b2)
  {
    assert (b0 * p.d1 + b1) * p.d2 == b0 * p.d1 * p.d2 + b1 * p.d2;
  }

  /** The calls are exactly one per batch triple: there are d0 * d1 * d2 of
      them and the triple (b0, b1, b2) is the call at its loop-order index. */
  lemma CallsPerTriple(p: Plan)
    requires p.d0 >= 0 && p.d1 >= 0 && p.d2 >= 0
    ensures |Calls0(p, p.d0)| == p.d0 * (p.d1 * p.d2)
    ensures forall b0, b1, b2 :: 0 <= b0 < p.d0 && 0 <= b1 < p.d1 && 0 <= b2 < p.d2 ==>
              0 <= BlockIndex(p, b0, b1, b2) < |Calls0(p, p.d0)| &&
              Calls0(p, p.d0)[BlockIndex(p, b0, b1, b2)] == Call(p, b0, b1, b2)
  {
    Calls0Length(p, p.d0);
    forall b0, b1, b2 | 0 <= b0 < p.d0 && 0 <= b1 < p.d1 && 0 <= b2 < p.d2
      ensures 0 <= BlockIndex(p, b0, b1, b2) < |Calls0(p, p.d0)|
      ensures Calls0(p, p.d0)[BlockIndex(p, b0, b1, b2)] == Call(p, b0, b1, b2)
    {
      BlockIndexSplit(p, b0, b1, b2);
      MixedRadixBound(b1, p.d1, p.d2, b2);
      MixedRadixBound(b0, p.d0, p.d1 * p.d2, b1 * p.d2 + b2);
      Calls0At(p, p.d0, b0, b1, b2);
    }
  }

  /** Distinct in-range triples have distinct loop-order indices, all below
      d0 * d1 * d2. */
  lemma BlockIndexInjective(p: Plan, b0: int, b1: int, b2: int, c0: int, c1: int, c2: int)
    requires 0 <= b0 < p.d0 && 0 <= b1 < p.d1 && 0 <= b2 < p.d2
    requires 0 <= c0 < p.d0 && 0 <= c1 < p.d1 && 0 <= c2 < p.d2
    ensures 0 <= BlockIndex(p, b0, b1, b2) < p.d0 * (p.d1 * p.d2)
    ensures BlockIndex(p, b0, b1, b2) == BlockIndex(p, c0, c1, c2) ==> b0 == c0 && b1 == c1 && b2 == c2
  {
    BlockIndexSplit(p, b0, b1, b2);
    MixedRadixBound(b1, p.d1, p.d2, b2);
    MixedRadixBound(b0, p.d0, p.d1 * p.d2, b1 * p.d2 + b2);
    if BlockIndex(p, b0, b1, b2) == BlockIndex(p, c0, c1, c2) {
      MixedRadixBound(b0, p.d0, p.d1, b1);
      MixedRadixBound(c0, p.d0, p.d1, c1);
      MixedRadixUnique(b0 * p.d1 + b1, b2, c0 * p.d1 + c1, c2, p.d2);
      MixedRadixUnique(b0, b1, c0, c1, p.d1);
    }
  }

  /** The output offset of a call is its loop-order index times the size
      of one output block. */
  lemma OutOffsetIsBlock(p: Plan, b0: int, b1: int, b2: int)
    ensures Call(p, b0, b1, b2).outOffset == BlockIndex(p, b0, b1, b2) * (p.rows * p.cols)
  {
    var k := BlockIndex(p, b0, b1, b2);
    assert (b0 * p.d1 * p.d2) + b1 * p.d2 + b2 == k by {
      assert (b0 * p.d1 + b1) * p.d2 == b0 * p.d1 * p.d2 + b1 * p.d2;
    }
    assert k * p.rows * p.cols == k * (p.rows * p.cols);
  }

  /** Each call writes a rows x cols block: the blocks of distinct in-range
      triples do not overlap and all lie inside the d0 * d1 * d2 * rows *
      cols output. */
  lemma OutputBlocksDisjoint(p: Plan, b0: int, b1: int, b2: int, c0: int, c1: int, c2: int)
    requires 0 <= b0 < p.d0 && 0 <= b1 < p.d1 && 0 <= b2 < p.d2
    requires 0 <= c0 < p.d0 && 0 <= c1 < p.d1 && 0 <= c2 < p.d2
    requires p.rows >= 0 && p.cols >= 0
    ensures var rc := p.rows * p.cols;
            var start := Call(p, b0, b1, b2).outOffset;
            0 <= start && start + rc <= p.d0 * (p.d1 * p.d2) * rc
    ensures var rc := p.rows * p.cols;
            var x, y := Call(p, b0, b1, b2).outOffset, Call(p, c0, c1, c2).outOffset;
            (b0, b1, b2) != (c0, c1, c2) ==> x + rc <= y || y + rc <= x
  {
    var k, l := BlockIndex(p, b0, b1, b2), BlockIndex(p, c0, c1, c2);
    BlockIndexInjective(p, b0, b1, b2, c0, c1, c2);
    BlockIndexInjective(p, c0, c1, c2, b0, b1, b2);
    OutOffsetIsBlock(p, b0, b1, b2);
    OutOffsetIsBlock(p, c0, c1, c2);
    BlocksDisjoint(k, l, p.d0 * (p.d1 * p.d2), p.rows * p.cols);
  }

  /** Blocks of size rc at distinct indices below n are disjoint and lie in
      [0, n * rc). */
  lemma BlocksDisjoint(k: int, l: int, n: int, rc: int)
    requires 0 <= k < n && 0 <= l < n && rc >= 0
    ensures 0 <= k * rc && k * rc + rc <= n * rc
    ensures k != l ==> k * rc + rc <= l * rc || l * rc + rc <= k * rc
  {
    if rc > 0 {
      MixedRadixBound(k, n, rc, 0);
      if k < l {
        MixedRadixBound(k, l, rc, 0);
      } else if l < k {
        MixedRadixBound(l, k, rc, 0);
      }
    }
  }

  /** c strides of p plus at most one more stay within n strides. */
  lemma StrideBound(c: int, n: int, p: int, rest: int)
    requires 0 <= c < n && 0 <= rest <= p
    ensures 0 <= c * p && c * p + rest <= n * p
  {
    if p > 0 {
      MixedRadixBound(c, n, p, 0);
    }
  }

  /** One batch digit of an operand: the step it contributes is c times
      the product of the later dimensions, where c is the digit, or 0 when
      the operand is broadcast along that dimension. */
  function Digit(s: seq<int>, x: int, b: int): int
    requires 0 <= x < |s|
  {
    if s[x] == 1 then 0 else b
  }

  lemma DigitStep(s: seq<int>, x: int, b: int)
    requires 0 <= x < |s|
    ensures b * ExtentOf(s, x) == Digit(s, x, b) * Product(s[x + 1..])
  {
  }

  /** Every GEMM operand lies inside its buffer: for an operand of
      non-negative extended shape s whose batch dimensions are the loop
      bounds or 1, the matrix at the offset of any in-range batch triple
      ends within the Product(s) elements of s. */
  lemma OperandInBounds(s: seq<int>, d0: int, d1: int, d2: int, b0: int, b1: int, b2: int)
    requires |s| == 5 && forall i :: 0 <= i < 5 ==> s[i] >= 0
    requires 0 <= b0 < d0 && 0 <= b1 < d1 && 0 <= b2 < d2
    requires (s[0] == d0 || s[0] == 1) && (s[1] == d1 || s[1] == 1) && (s[2] == d2 || s[2] == 1)
    ensures var offset := b0 * ExtentOf(s, 0) + b1 * ExtentOf(s, 1) + b2 * ExtentOf(s, 2);
            0 <= offset && offset + s[3] * s[4] <= Product(s)
  {
    var p3, p2, p1, p0 := Product(s[3..]), Product(s[2..]), Product(s[1..]), Product(s);
    assert s[3..][1..] == s[4..] && s[4..][1..] == [];
    assert Product(s[4..]) == s[4] * 1;
    assert p3 == s[3] * s[4];
    assert s[2..][1..] == s[3..] && s[1..][1..] == s[2..] && s[0..] == s;
    assert p2 == s[2] * p3 && p1 == s[1] * p2 && p0 == s[0] * p1;
    ProductNonNegative(s[3..]);
    ProductNonNegative(s[2..]);
    ProductNonNegative(s[1..]);
    DigitStep(s, 0, b0);
    DigitStep(s, 1, b1);
    DigitStep(s, 2, b2);
    var c0, c1, c2 := Digit(s, 0, b0), Digit(s, 1, b1), Digit(s, 2, b2);
    StrideBound(c2, s[2], p3, p3);
    StrideBound(c1, s[1], p2, c2 * p3 + p3);
    StrideBound(c0, s[0], p1, c1 * p2 + c2 * p3 + p3);
  }

  /** The GEMM of any in-range batch triple reads an LHS matrix of
      rows x depth and an RHS matrix of depth x cols that lie inside the
      LHS and RHS buffers. */
  lemma GemmOperandsInBounds(lhs: seq<int>, rhs: seq<int>, b0: int, b1: int, b2: int)
    requires |lhs| == 5 && |rhs| == 5 && Broadcastable(lhs, rhs)
    requires forall i :: 0 <= i < 5 ==> lhs[i] >= 0 && rhs[i] >= 0
    requires var p := PlanOf(lhs, rhs); 0 <= b0 < p.d0 && 0 <= b1 < p.d1 && 0 <= b2 < p.d2
    ensures var c := Call(PlanOf(lhs, rhs), b0, b1, b2);
            0 <= c.lhsOffset && c.lhsOffset + lhs[3] * lhs[4] <= Product(lhs) &&
            0 <= c.rhsOffset && c.rhsOffset + rhs[3] * rhs[4] <= Product(rhs)
  {
    var p := PlanOf(lhs, rhs);
    BroadcastDimIsCommon(lhs[0], rhs[0]);
    BroadcastDimIsCommon(lhs[1], rhs[1]);
    BroadcastDimIsCommon(lhs[2], rhs[2]);
    OperandInBounds(lhs, p.d0, p.d1, p.d2, b0, b1, b2);
    OperandInBounds(rhs, p.d0, p.d1, p.d2, b0, b1, b2);
  }

  /** A broadcast batch dimension does not move the data pointer: the LHS
      offset does not depend on a batch index whose LHS dimension is 1. */
  lemma BroadcastDoesNotAdvance(lhs: seq<int>)
    requires |lhs| == 5
    ensures forall x :: 0 <= x < 3 && lhs[x] == 1 ==> ExtentOf(lhs, x) == 0
  {
  }
}
