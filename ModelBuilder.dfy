// The TFLite GPU delegate's model builder: conversion of TfLite dimension
// arrays into the delegate's shape records, the validators and attribute
// parsers of individual operations, and the partition helper that picks the
// nodes handed to the GPU.
module ModelBuilder {
  import opened Common

  /** The entries of a TfLiteIntArray of dimensions. A negative size is not
      representable as a sequence. */
  type Dims = seq<int>

  datatype BHWC = BHWC(b: int, h: int, w: int, c: int)
  datatype HWC = HWC(h: int, w: int, c: int)
  datatype HW = HW(h: int, w: int)
  datatype OHWI = OHWI(o: int, h: int, w: int, i: int)
  datatype IHWO = IHWO(i: int, h: int, w: int, o: int)

  function BhwcDims(s: BHWC): Dims { [s.b, s.h, s.w, s.c] }
  function OhwiDims(s: OHWI): Dims { [s.o, s.h, s.w, s.i] }
  function IhwoDims(s: IHWO): Dims { [s.i, s.h, s.w, s.o] }
  function HwDims(s: HW): Dims { [s.h, s.w] }

  /** Number of elements a BHWC shape holds. */
  function ElementCount(s: BHWC): int { s.b * (s.h * (s.w * s.c)) }

  // ---------------------------------------------------------------------
  // SetAllDimensions<ShapeT>

  /** If every dimension but the last is 1, the array holds as many elements
      as its last dimension says; an empty array holds one. */
  lemma {:induction false} LeadingOnesProduct(dims: Dims)
    requires |dims| > 0
    requires forall i :: 0 <= i < |dims| - 1 ==> dims[i] == 1
    ensures Product(dims) == dims[|dims| - 1]
  {
    if |dims| > 1 {
      assert forall i :: 0 <= i < |dims[1..]| - 1 ==> dims[1..][i] == dims[i + 1];
      LeadingOnesProduct(dims[1..]);
    }
  }

  /** SetAllDimensions<Scalar>: the array reduces to a scalar when every
      dimension is 1; the scalar's v is then 1, the array's element count. */
  method SetScalarDimensions(dims: Dims) returns (r: Result<int>)
    ensures r.Success? <==> forall i :: 0 <= i < |dims| ==> dims[i] == 1
    ensures r.Success? ==> r.value == 1 && Product(dims) == r.value
    ensures r.Failure? ==> r.code == InvalidArgument
  {
    var i := 0;
    while i < |dims|
      invariant 0 <= i <= |dims|
      invariant forall k :: 0 <= k < i ==> dims[k] == 1
    {
      if dims[i] != 1 {
        return Failure(InvalidArgument);
      }
      i := i + 1;
    }
    if |dims| > 0 {
      LeadingOnesProduct(dims);
    }
    return Success(1);
  }

  /** SetAllDimensions<Linear>: the array must be non-empty with every
      dimension but the last equal to 1; v is the last dimension, which is
      also the array's element count. */
  method SetLinearDimensions(dims: Dims) returns (r: Result<int>)
    ensures |dims| == 0 ==> r == Failure(InvalidArgument)
    ensures r.Success? <==> |dims| > 0 && forall i :: 0 <= i < |dims| - 1 ==> dims[i] == 1
    ensures r.Success? ==> r.value == dims[|dims| - 1] && Product(dims) == r.value
    ensures r.Failure? ==> r.code == InvalidArgument
  {
    if |dims| <= 0 {
      return Failure(InvalidArgument);
    }
    var i := 0;
    while i < |dims| - 1
      invariant 0 <= i <= |dims| - 1
      invariant forall k :: 0 <= k < i ==> dims[k] == 1
    {
      if dims[i] != 1 {
        return Failure(InvalidArgument);
      }
      i := i + 1;
    }
    LeadingOnesProduct(dims);
    return Success(dims[|dims| - 1]);
  }

  /** SetAllDimensions<HWC>: a rank-4 array with batch 1; the others are
      InvalidArgument and a batch other than 1 is Unimplemented. */
  function SetHwcDimensions(dims: Dims): (r: Result<HWC>)
    ensures r.Success? <==> |dims| == 4 && dims[0] == 1
    ensures |dims| != 4 ==> r == Failure(InvalidArgument)
    ensures |dims| == 4 && dims[0] != 1 ==> r == Failure(Unimplemented)
    ensures r.Success? ==> [1, r.value.h, r.value.w, r.value.c] == dims
  {
    if |dims| != 4 then Failure(InvalidArgument)
    else if dims[0] != 1 then Failure(Unimplemented)
    else Success(HWC(dims[1], dims[2], dims[3]))
  }

  /** SetAllDimensions<HW>: exactly two dimensions, copied in order. */
  function SetHwDimensions(dims: Dims): (r: Result<HW>)
    ensures r.Success? <==> |dims| == 2
    ensures r.Failure? ==> r.code == InvalidArgument
    ensures r.Success? ==> HwDims(r.value) == dims
  {
    if |dims| != 2 then Failure(InvalidArgument) else Success(HW(dims[0], dims[1]))
  }

  /** SetAllDimensions<OHWI>: exactly four dimensions, copied in order. */
  function SetOhwiDimensions(dims: Dims): (r: Result<OHWI>)
    ensures r.Success? <==> |dims| == 4
    ensures r.Failure? ==> r.code == InvalidArgument
    ensures r.Success? ==> OhwiDims(r.value) == dims
  {
    if |dims| != 4 then Failure(InvalidArgument)
    else Success(OHWI(dims[0], dims[1], dims[2], dims[3]))
  }

  /** SetAllDimensions<IHWO>: exactly four dimensions, copied in order. */
  function SetIhwoDimensions(dims: Dims): (r: Result<IHWO>)
    ensures r.Success? <==> |dims| == 4
    ensures r.Failure? ==> r.code == InvalidArgument
    ensures r.Success? ==> IhwoDims(r.value) == dims
  {
    if |dims| != 4 then Failure(InvalidArgument)
    else Success(IHWO(dims[0], dims[1], dims[2], dims[3]))
  }

  /** SetAllDimensions<BHWC>: exactly four dimensions, copied in order. */
  function SetBhwcDimensions(dims: Dims): (r: Result<BHWC>)
    ensures r.Success? <==> |dims| == 4
    ensures r.Failure? ==> r.code == InvalidArgument
    ensures r.Success? ==> BhwcDims(r.value) == dims
  {
    if |dims| != 4 then Failure(InvalidArgument)
    else Success(BHWC(dims[0], dims[1], dims[2], dims[3]))
  }

  /** Writing a shape out as a dimension array and reading it back gives the
      shape again, for every fixed-rank layout. */
  lemma SetDimensionsRoundTrip(s: BHWC, t: OHWI, u: IHWO, v: HW, x: HWC)
    ensures SetBhwcDimensions(BhwcDims(s)) == Success(s)
    ensures SetOhwiDimensions(OhwiDims(t)) == Success(t)
    ensures SetIhwoDimensions(IhwoDims(u)) == Success(u)
    ensures SetHwDimensions(HwDims(v)) == Success(v)
    ensures SetHwcDimensions([1, x.h, x.w, x.c]) == Success(x)
  {
  }

  // ---------------------------------------------------------------------
  // ExtractTensorShape

  /** The dimension array of the given rank that ExtractTensorShape widens
      into `s`: the axes it fills with 1 are dropped. */
  function DimsOfRank(s: BHWC, rank: nat): Dims
  {
    if rank == 1 then [s.b]
    else if rank == 2 then [s.b, s.c]
    else if rank == 3 then [s.b, s.w, s.c]
    else BhwcDims(s)
  }

  /** The axes a rank leaves out are 1 in the widened shape. */
  predicate PaddedForRank(s: BHWC, rank: nat)
  {
    (rank <= 3 ==> s.h == 1) && (rank <= 2 ==> s.w == 1) && (rank <= 1 ==> s.c == 1)
  }

  /** ExtractTensorShape: ranks 1 to 4 widen to BHWC by inserting unit axes
      (batch always first, channels last when present); other ranks are
      InvalidArgument. */
  function ExtractTensorShape(dims: Dims): (r: Result<BHWC>)
    ensures r.Success? <==> 1 <= |dims| <= 4
    ensures r.Failure? ==> r.code == InvalidArgument
    ensures r.Success? ==> PaddedForRank(r.value, |dims|) && DimsOfRank(r.value, |dims|) == dims
  {
    if |dims| == 1 then Success(BHWC(dims[0], 1, 1, 1))
    else if |dims| == 2 then Success(BHWC(dims[0], 1, 1, dims[1]))
    else if |dims| == 3 then Success(BHWC(dims[0], 1, dims[1], dims[2]))
    else if |dims| == 4 then Success(BHWC(dims[0], dims[1], dims[2], dims[3]))
    else Failure(InvalidArgument)
  }

  /** Every shape whose dropped axes are 1 is extracted back from its own
      dimension array, and on rank 4 extraction is SetAllDimensions<BHWC>. */
  lemma ExtractTensorShapeRoundTrip(s: BHWC, rank: nat, dims: Dims)
    requires 1 <= rank <= 4 && PaddedForRank(s, rank)
    ensures ExtractTensorShape(DimsOfRank(s, rank)) == Success(s)
    ensures |dims| == 4 ==> ExtractTensorShape(dims) == SetBhwcDimensions(dims)
  {
  }

  /** Extraction keeps the number of elements the tensor holds. */
  lemma ExtractKeepsElementCount(dims: Dims)
    requires 1 <= |dims| <= 4
    ensures ElementCount(ExtractTensorShape(dims).value) == Product(dims)
  {
    var n := |dims|;
    var last := dims[n - 1..];
    assert last[1..] == [];
    assert Product(last) == dims[n - 1];
    if n == 2 {
      assert dims[1..] == last;
    } else if n == 3 {
      var t := dims[1..];
      assert t[1..] == last;
      assert Product(t) == dims[1] * dims[2];
    } else if n == 4 {
      var u := dims[1..];
      var t := u[1..];
      assert t[1..] == last;
      assert Product(t) == dims[2] * dims[3];
      assert Product(u) == dims[1] * (dims[2] * dims[3]);
      assert Product(dims) == dims[0] * (dims[1] * (dims[2] * dims[3]));
    }
  }

  // ---------------------------------------------------------------------
  // Validators

  /** ToHW: a non-positive kernel or stride value becomes 1. */
  function ToHW(h: int, w: int): (r: HW)
    ensures r.h > 0 && r.w > 0
    ensures h > 0 ==> r.h == h
    ensures w > 0 ==> r.w == w
  {
    HW(if h > 0 then h else 1, if w > 0 then w else 1)
  }

  /** CheckMaxSupportedOpVersion: versions above the maximum are
      Unimplemented. */
  function CheckMaxSupportedOpVersion(version: int, maxVersion: int): (s: Code)
    ensures s == Ok <==> version <= maxVersion
    ensures s == Ok || s == Unimplemented
  {
    if version > maxVersion then Unimplemented else Ok
  }

  /** CheckExactSupportedOpVersion: any other version is Unimplemented. */
  function CheckExactSupportedOpVersion(version: int, expected: int): (s: Code)
    ensures s == Ok <==> version == expected
    ensures s == Ok || s == Unimplemented
  {
    if version != expected then Unimplemented else Ok
  }

  /** The shared test of CheckKernels, CheckStrides and CheckDilation. */
  function PositivePair(h: int, w: int): Code
  {
    if h <= 0 || w <= 0 then InvalidArgument else Ok
  }

  /** CheckKernels: both kernel extents must be positive. */
  function CheckKernels(h: int, w: int): (s: Code)
    ensures s == Ok <==> h > 0 && w > 0
    ensures s == Ok || s == InvalidArgument
  {
    PositivePair(h, w)
  }

  /** CheckStrides: both strides must be positive. */
  function CheckStrides(h: int, w: int): (s: Code)
    ensures s == Ok <==> h > 0 && w > 0
    ensures s == Ok || s == InvalidArgument
  {
    PositivePair(h, w)
  }

  /** CheckDilation: both dilation factors must be positive. */
  function CheckDilation(h: int, w: int): (s: Code)
    ensures s == Ok <==> h > 0 && w > 0
    ensures s == Ok || s == InvalidArgument
  {
    PositivePair(h, w)
  }

  /** CheckStridesAndDilation: the first failing check decides. */
  function CheckStridesAndDilation(sh: int, sw: int, dh: int, dw: int): (s: Code)
    ensures s == Ok <==> sh > 0 && sw > 0 && dh > 0 && dw > 0
    ensures s == Ok || s == InvalidArgument
  {
    var st := CheckStrides(sh, sw);
    if st != Ok then st else CheckDilation(dh, dw)
  }

  /** CheckKernelsAndStrides: the first failing check decides. */
  function CheckKernelsAndStrides(kh: int, kw: int, sh: int, sw: int): (s: Code)
    ensures s == Ok <==> kh > 0 && kw > 0 && sh > 0 && sw > 0
    ensures s == Ok || s == InvalidArgument
  {
    var st := CheckKernels(kh, kw);
    if st != Ok then st else CheckStrides(sh, sw)
  }

  datatype Pooling2DAttributes = Pooling2DAttributes(kernel: HW, strides: HW)

  /** ParsePoolingAttributes: the kernel and strides go through ToHW, so the
      parsed attributes always pass the kernel and stride checks and keep
      the positive option values. */
  function ParsePoolingAttributes(filterH: int, filterW: int, strideH: int, strideW: int)
    : (a: Pooling2DAttributes)
    ensures CheckKernelsAndStrides(a.kernel.h, a.kernel.w, a.strides.h, a.strides.w) == Ok
    ensures filterH > 0 && filterW > 0 ==> a.kernel == HW(filterH, filterW)
    ensures strideH > 0 && strideW > 0 ==> a.strides == HW(strideH, strideW)
  {
    Pooling2DAttributes(ToHW(filterH, filterW), ToHW(strideH, strideW))
  }

  // ---------------------------------------------------------------------
  // Slice and StridedSlice

  datatype SliceAttributes = SliceAttributes(starts: BHWC, ends: BHWC, strides: BHWC)

  /** An end counted from the back of an axis of the given size. */
  function FromBack(size: int, e: int): int
  {
    if e < 0 then size + e else e
  }

  /** UpdateIfNegative: each negative end e of an axis becomes size + e. */
  function UpdateIfNegative(input: BHWC, ends: BHWC): (r: BHWC)
    ensures forall k :: 0 <= k < 4 ==>
      BhwcDims(r)[k] == FromBack(BhwcDims(input)[k], BhwcDims(ends)[k])
  {
    BHWC(FromBack(input.b, ends.b), FromBack(input.h, ends.h),
         FromBack(input.w, ends.w), FromBack(input.c, ends.c))
  }

  /** Every end lies within [-size, size] of its axis. */
  predicate EndsWithin(input: BHWC, ends: BHWC)
  {
    forall k :: 0 <= k < 4 ==> -BhwcDims(input)[k] <= BhwcDims(ends)[k] <= BhwcDims(input)[k]
  }

  /** Non-negative ends are left alone, ends within [-size, size] land in
      [0, size], and a second update of such ends changes nothing. */
  lemma UpdateIfNegativeMeans(input: BHWC, ends: BHWC)
    ensures (forall k :: 0 <= k < 4 ==> BhwcDims(ends)[k] >= 0) ==> UpdateIfNegative(input, ends) == ends
    ensures EndsWithin(input, ends) ==>
      var r := UpdateIfNegative(input, ends);
      (forall k :: 0 <= k < 4 ==> 0 <= BhwcDims(r)[k] <= BhwcDims(input)[k])
      && UpdateIfNegative(input, r) == r
  {
    var r := UpdateIfNegative(input, ends);
    if forall k :: 0 <= k < 4 ==> BhwcDims(ends)[k] >= 0 {
      assert ends.b >= 0 && ends.h >= 0 && ends.w >= 0 && ends.c >= 0 by {
        assert BhwcDims(ends)[0] >= 0 && BhwcDims(ends)[1] >= 0;
        assert BhwcDims(ends)[2] >= 0 && BhwcDims(ends)[3] >= 0;
      }
    }
    if EndsWithin(input, ends) {
      assert r.b >= 0 && r.h >= 0 && r.w >= 0 && r.c >= 0 by {
        assert -BhwcDims(input)[0] <= BhwcDims(ends)[0] && -BhwcDims(input)[1] <= BhwcDims(ends)[1];
        assert -BhwcDims(input)[2] <= BhwcDims(ends)[2] && -BhwcDims(input)[3] <= BhwcDims(ends)[3];
      }
    }
  }

  /** The extent a slice selects on every axis, from start to end. */
  function SliceExtent(a: SliceAttributes): BHWC
  {
    BHWC(a.ends.b - a.starts.b, a.ends.h - a.starts.h, a.ends.w - a.starts.w, a.ends.c - a.starts.c)
  }

  /** Starts and (unresolved) ends of a Slice from its begin and size
      tensors; a 3-element slice keeps the whole batch. */
  function SliceBounds(starts: seq<int>, sizes: seq<int>, input: BHWC): (r: Result<(BHWC, BHWC)>)
    ensures r.Success? <==> |starts| == |sizes| && (|starts| == 3 || |starts| == 4)
    ensures |starts| != |sizes| ==> r == Failure(InvalidArgument)
    ensures |starts| == |sizes| && r.Failure? ==> r.code == Unimplemented
  {
    if |starts| != |sizes| then Failure(InvalidArgument)
    else if |starts| == 4 then
      Success((BHWC(starts[0], starts[1], starts[2], starts[3]),
               BHWC(starts[0] + sizes[0], starts[1] + sizes[1],
                    starts[2] + sizes[2], starts[3] + sizes[3])))
    else if |starts| == 3 then
      Success((BHWC(0, starts[0], starts[1], starts[2]),
               BHWC(input.b, starts[0] + sizes[0], starts[1] + sizes[1], starts[2] + sizes[2])))
    else Failure(Unimplemented)
  }

  /** The Slice parser: bounds from the begin and size tensors, negative
      ends resolved, and the selected extent must be the output shape. */
  function ParseSlice(starts: seq<int>, sizes: seq<int>, input: BHWC, output: BHWC)
    : (r: Result<SliceAttributes>)
    ensures r.Success? ==> |starts| == |sizes| && (|starts| == 3 || |starts| == 4)
    ensures |starts| != |sizes| ==> r == Failure(InvalidArgument)
    ensures |starts| == |sizes| && r.Failure? ==> r.code == Unimplemented
    ensures r.Success? ==> SliceExtent(r.value) == output && r.value.strides == BHWC(1, 1, 1, 1)
  {
    match SliceBounds(starts, sizes, input)
    case Failure(code) => Failure(code)
    case Success((st, en)) =>
      var a := SliceAttributes(st, UpdateIfNegative(input, en), BHWC(1, 1, 1, 1));
      if SliceExtent(a) != output then Failure(Unimplemented) else Success(a)
  }

  /** A 4-element slice with non-negative begin and size whose sizes are
      the output shape is accepted as given. */
  lemma ParseSliceAccepts(starts: seq<int>, sizes: seq<int>, input: BHWC)
    requires |starts| == 4 && |sizes| == 4
    requires forall k :: 0 <= k < 4 ==> starts[k] >= 0 && sizes[k] >= 0
    ensures var output := BHWC(sizes[0], sizes[1], sizes[2], sizes[3]);
      ParseSlice(starts, sizes, input, output)
        == Success(SliceAttributes(BHWC(starts[0], starts[1], starts[2], starts[3]),
                                   BHWC(starts[0] + sizes[0], starts[1] + sizes[1],
                                        starts[2] + sizes[2], starts[3] + sizes[3]),
                                   BHWC(1, 1, 1, 1)))
  {
    var en := BHWC(starts[0] + sizes[0], starts[1] + sizes[1], starts[2] + sizes[2], starts[3] + sizes[3]);
    assert en.b >= 0 && en.h >= 0 && en.w >= 0 && en.c >= 0;
    assert UpdateIfNegative(input, en) == en;
  }

  /** The bit test `mask & bit` of the strided-slice masks. */
  predicate MaskHas(mask: bv32, bit: bv32)
  {
    mask & bit != 0
  }

  /** UpdateWithMask: an axis whose bit is set in the begin mask starts at 0,
      one whose bit is set in the end mask ends at the input's size. */
  function UpdateWithMask(beginMask: bv32, endMask: bv32, input: BHWC,
                          ib: bv32, ih: bv32, iw: bv32, ic: bv32, a: SliceAttributes): SliceAttributes
  {
    SliceAttributes(
      BHWC(if MaskHas(beginMask, ib) then 0 else a.starts.b,
           if MaskHas(beginMask, ih) then 0 else a.starts.h,
           if MaskHas(beginMask, iw) then 0 else a.starts.w,
           if MaskHas(beginMask, ic) then 0 else a.starts.c),
      BHWC(if MaskHas(endMask, ib) then input.b else a.ends.b,
           if MaskHas(endMask, ih) then input.h else a.ends.h,
           if MaskHas(endMask, iw) then input.w else a.ends.w,
           if MaskHas(endMask, ic) then input.c else a.ends.c),
      a.strides)
  }

  /** The options of a TfLiteStridedSliceParams. */
  datatype StridedSliceParams = StridedSliceParams(
    beginMask: bv32, endMask: bv32, ellipsisMask: bv32, newAxisMask: bv32, shrinkAxisMask: bv32)

  /** CheckOptionsSupport: ellipsis, new-axis and shrink-axis masks are
      Unimplemented. */
  function CheckOptionsSupport(p: StridedSliceParams): (s: Code)
    ensures s == Ok <==> p.ellipsisMask == 0 && p.newAxisMask == 0 && p.shrinkAxisMask == 0
    ensures s == Ok || s == Unimplemented
  {
    if p.ellipsisMask != 0 then Unimplemented
    else if p.newAxisMask != 0 then Unimplemented
    else if p.shrinkAxisMask != 0 then Unimplemented
    else Ok
  }

  /** ReadAttribsWithBatch and ReadAttribsWithoutBatch: begin, end and
      strides as BHWC (without batch they fill h, w, c and the whole batch is
      taken with stride 1), negative ends resolved, masks applied. */
  function ReadStridedSliceAttribs(begin: seq<int>, end: seq<int>, strides: seq<int>,
                                   p: StridedSliceParams, input: BHWC): SliceAttributes
    requires |begin| == 3 || |begin| == 4
    requires |end| >= |begin| && |strides| >= |begin|
  {
    if |begin| == 4 then
      var a := SliceAttributes(BHWC(begin[0], begin[1], begin[2], begin[3]),
                               BHWC(end[0], end[1], end[2], end[3]),
                               BHWC(strides[0], strides[1], strides[2], strides[3]));
      var a := a.(ends := UpdateIfNegative(input, a.ends));
      UpdateWithMask(p.beginMask, p.endMask, input, 1, 2, 4, 8, a)
    else
      var a := SliceAttributes(BHWC(0, begin[0], begin[1], begin[2]),
                               BHWC(0, end[0], end[1], end[2]),
                               BHWC(0, strides[0], strides[1], strides[2]));
      var a := a.(ends := UpdateIfNegative(input, a.ends));
      var a := UpdateWithMask(p.beginMask, p.endMask, input, 0, 1, 2, 4, a);
      SliceAttributes(a.starts.(b := 0), a.ends.(b := input.b), a.strides.(b := 1))
  }

  /** Number of elements a strided range selects, with C++'s division. */
  function StridedCount(start: int, end: int, stride: int): int
    requires stride != 0
  {
    TruncDiv(end - start + stride - 1, stride)
  }

  /** The extent a strided slice selects on every axis. */
  function StridedExtent(a: SliceAttributes): BHWC
    requires a.strides.b != 0 && a.strides.h != 0 && a.strides.w != 0 && a.strides.c != 0
  {
    BHWC(StridedCount(a.starts.b, a.ends.b, a.strides.b), StridedCount(a.starts.h, a.ends.h, a.strides.h),
         StridedCount(a.starts.w, a.ends.w, a.strides.w), StridedCount(a.starts.c, a.ends.c, a.strides.c))
  }

  predicate AllPositive(s: BHWC)
  {
    s.b > 0 && s.h > 0 && s.w > 0 && s.c > 0
  }

  /** The StridedSlice parser. The begin tensor decides the rank (3 or 4,
      else Unimplemented); zero strides are InvalidArgument, negative ones
      Unimplemented; the selected extent must be the output shape. */
  function ParseStridedSlice(begin: seq<int>, end: seq<int>, strides: seq<int>,
                             p: StridedSliceParams, input: BHWC, output: BHWC)
    : (r: Result<SliceAttributes>)
    requires (|begin| == 3 || |begin| == 4) ==> |end| >= |begin| && |strides| >= |begin|
    ensures r.Success? ==> (|begin| == 3 || |begin| == 4) && CheckOptionsSupport(p) == Ok
    ensures !(|begin| == 3 || |begin| == 4) ==> r == Failure(Unimplemented)
    ensures r.Success? ==> AllPositive(r.value.strides) && StridedExtent(r.value) == output
    ensures r.Success? && |begin| == 3 ==>
      r.value.starts.b == 0 && r.value.ends.b == input.b && r.value.strides.b == 1
    ensures r.Failure? ==> r.code == Unimplemented || r.code == InvalidArgument
  {
    if |begin| != 3 && |begin| != 4 then Failure(Unimplemented)
    else if CheckOptionsSupport(p) != Ok then Failure(CheckOptionsSupport(p))
    else
      var a := ReadStridedSliceAttribs(begin, end, strides, p, input);
      if a.strides.b == 0 || a.strides.h == 0 || a.strides.w == 0 || a.strides.c == 0 then
        Failure(InvalidArgument)
      else if a.strides.b < 0 || a.strides.h < 0 || a.strides.w < 0 || a.strides.c < 0 then
        Failure(Unimplemented)
      else if StridedExtent(a) != output then Failure(Unimplemented)
      else Success(a)
  }

  /** With every mask bit set and unit strides, a strided slice selects the
      whole input, whatever the begin and end tensors hold. */
  lemma StridedSliceFullMask(begin: seq<int>, end: seq<int>, input: BHWC)
    requires |begin| == 4 && |end| == 4
    ensures var p := StridedSliceParams(15, 15, 0, 0, 0);
      ParseStridedSlice(begin, end, [1, 1, 1, 1], p, input, input)
        == Success(SliceAttributes(BHWC(0, 0, 0, 0), input, BHWC(1, 1, 1, 1)))
  {
    var p := StridedSliceParams(15, 15, 0, 0, 0);
    assert MaskHas(15, 1) && MaskHas(15, 2) && MaskHas(15, 4) && MaskHas(15, 8);
    var a := ReadStridedSliceAttribs(begin, end, [1, 1, 1, 1], p, input);
    assert a == SliceAttributes(BHWC(0, 0, 0, 0), input, BHWC(1, 1, 1, 1));
    assert StridedExtent(a) == input;
  }

  // ---------------------------------------------------------------------
  // Transpose, Mean and Pad

  /** The entries of a permutation of 0 .. |p|-1. */
  predicate IsPermutation(p: seq<int>)
  {
    (forall k :: 0 <= k < |p| ==> 0 <= p[k] < |p|)
    && (forall k, l :: 0 <= k < l < |p| ==> p[k] != p[l])
  }

  /** The transpose parser: a permutation of rank 2 or 3 is shifted onto the
      trailing axes of BHWC, the leading axes staying in place; other ranks
      than 2, 3 and 4 are InvalidArgument. */
  function ParseTransposePerm(perm: seq<int>): (r: Result<BHWC>)
    ensures r.Success? <==> 2 <= |perm| <= 4
    ensures r.Failure? ==> r.code == InvalidArgument
    ensures r.Success? ==> forall k :: 0 <= k < 4 ==>
      BhwcDims(r.value)[k] == (if k < 4 - |perm| then k else perm[k - (4 - |perm|)] + (4 - |perm|))
  {
    if |perm| == 4 then Success(BHWC(perm[0], perm[1], perm[2], perm[3]))
    else if |perm| == 3 then Success(BHWC(0, perm[0] + 1, perm[1] + 1, perm[2] + 1))
    else if |perm| == 2 then Success(BHWC(0, 1, perm[0] + 2, perm[1] + 2))
    else Failure(InvalidArgument)
  }

  /** A permutation of a lower rank becomes a permutation of the four BHWC
      axes. */
  lemma TransposePermIsPermutation(perm: seq<int>)
    requires 2 <= |perm| <= 4 && IsPermutation(perm)
    ensures ParseTransposePerm(perm).Success?
    ensures IsPermutation(BhwcDims(ParseTransposePerm(perm).value))
  {
    var q := BhwcDims(ParseTransposePerm(perm).value);
    var d := 4 - |perm|;
    forall k | 0 <= k < 4
      ensures 0 <= q[k] < 4
      ensures k >= d ==> q[k] >= d
    {
      if k >= d {
        assert 0 <= perm[k - d] < |perm|;
      }
    }
    forall k, l | 0 <= k < l < 4
      ensures q[k] != q[l]
    {
      if l >= d && k >= d {
        assert perm[k - d] != perm[l - d];
      }
    }
  }

  datatype Axis = Batch | Height | Width | Channels

  /** The Mean parser: the axes tensor may name only height (1) and width
      (2); batch, channels and anything else are Unimplemented. */
  method ParseMeanAxes(axes: seq<int>) returns (r: Result<set<Axis>>)
    ensures r.Success? <==> forall i :: 0 <= i < |axes| ==> axes[i] == 1 || axes[i] == 2
    ensures r.Failure? ==> r.code == Unimplemented
    ensures r.Success? ==> forall a :: a in r.value <==>
      (a == Height && 1 in axes) || (a == Width && 2 in axes)
  {
    var dims: set<Axis> := {};
    var i := 0;
    while i < |axes|
      invariant 0 <= i <= |axes|
      invariant forall k :: 0 <= k < i ==> axes[k] == 1 || axes[k] == 2
      invariant forall a :: a in dims <==>
        (a == Height && 1 in axes[..i]) || (a == Width && 2 in axes[..i])
    {
      assert axes[..i + 1] == axes[..i] + [axes[i]];
      if axes[i] == 1 {
        dims := dims + {Height};
      } else if axes[i] == 2 {
        dims := dims + {Width};
      } else {
        return Failure(Unimplemented);
      }
      i := i + 1;
    }
    assert axes[..i] == axes;
    return Success(dims);
  }

  datatype PaddingContentType = Zeros | Reflect
  datatype MirrorPaddingMode = ReflectMode | SymmetricMode
  datatype PadAttributes = PadAttributes(kind: PaddingContentType, prepended: BHWC, appended: BHWC)

  /** PadOperationParser::IsSupported: a mirror pad must reflect
      (InvalidArgument otherwise), and only version 1 is supported. */
  function CheckPadSupported(mirrorPad: bool, mode: MirrorPaddingMode, version: int): (s: Code)
    ensures s == Ok <==> (!mirrorPad || mode == ReflectMode) && version <= 1
    ensures mirrorPad && mode != ReflectMode ==> s == InvalidArgument
    ensures (!mirrorPad || mode == ReflectMode) && version > 1 ==> s == Unimplemented
  {
    if mirrorPad && mode != ReflectMode then InvalidArgument
    else CheckMaxSupportedOpVersion(version, 1)
  }

  /** The 4x2 paddings tensor, row by row: (before, after) for b, h, w, c. */
  function PaddingsOf(a: PadAttributes): seq<int>
  {
    [a.prepended.b, a.appended.b, a.prepended.h, a.appended.h,
     a.prepended.w, a.appended.w, a.prepended.c, a.appended.c]
  }

  /** The Pad parser: the paddings tensor must be 4x2 (InvalidArgument
      otherwise); row i holds the before and after padding of axis i. */
  function ParsePadAttributes(mirrorPad: bool, shape: HW, paddings: seq<int>): (r: Result<PadAttributes>)
    requires shape == HW(4, 2) ==> |paddings| == 8
    ensures r.Success? <==> shape == HW(4, 2)
    ensures r.Failure? ==> r.code == InvalidArgument
    ensures r.Success? ==> PaddingsOf(r.value) == paddings
    ensures r.Success? ==> r.value.kind == (if mirrorPad then Reflect else Zeros)
  {
    if shape.h != 4 || shape.w != 2 then Failure(InvalidArgument)
    else
      Success(PadAttributes(if mirrorPad then Reflect else Zeros,
                            BHWC(paddings[0], paddings[2], paddings[4], paddings[6]),
                            BHWC(paddings[1], paddings[3], paddings[5], paddings[7])))
  }

  /** Writing the attributes out as a paddings tensor and parsing it gives
      them back. */
  lemma PadAttributesRoundTrip(a: PadAttributes)
    ensures ParsePadAttributes(a.kind == Reflect, HW(4, 2), PaddingsOf(a)) == Success(a)
  {
  }

  // ---------------------------------------------------------------------
  // Graph partitioning

  /** A delegate partition: the ids of the nodes it would replace. */
  type Partition = seq<int>

  /** The nodes of `s` that lie in `keep`, in order. */
  function Selected(s: seq<int>, keep: set<int>): seq<int>
  {
    if s == [] then []
    else Selected(s[..|s| - 1], keep) + (if s[|s| - 1] in keep then [s[|s| - 1]] else [])
  }

  /** The nodes of `s` that are not in `drop`, in order. */
  function Without(s: seq<int>, drop: set<int>): seq<int>
  {
    if s == [] then []
    else Without(s[..|s| - 1], drop) + (if s[|s| - 1] in drop then [] else [s[|s| - 1]])
  }

  lemma {:induction false} SelectedMembers(s: seq<int>, keep: set<int>)
    ensures forall x :: x in Selected(s, keep) <==> x in s && x in keep
  {
    if s != [] {
      SelectedMembers(s[..|s| - 1], keep);
      assert s == s[..|s| - 1] + [s[|s| - 1]];
    }
  }

  /** Without removes exactly the dropped ids ... */
  lemma {:induction false} WithoutMembers(s: seq<int>, drop: set<int>)
    ensures forall x :: x in Without(s, drop) <==> x in s && x !in drop
  {
    if s != [] {
      WithoutMembers(s[..|s| - 1], drop);
      assert s == s[..|s| - 1] + [s[|s| - 1]];
    }
  }

  /** ... keeps the order of the rest (it distributes over concatenation)
      ... */
  lemma {:induction false} WithoutAppend(a: seq<int>, b: seq<int>, drop: set<int>)
    ensures Without(a + b, drop) == Without(a, drop) + Without(b, drop)
  {
    if b != [] {
      var b' := b[..|b| - 1];
      assert (a + b)[..|a + b| - 1] == a + b';
      WithoutAppend(a, b', drop);
    } else {
      assert a + b == a;
    }
  }

  /** ... and changes nothing when there is nothing to drop. */
  lemma {:induction false} WithoutNothing(s: seq<int>, drop: set<int>)
    requires forall k :: 0 <= k < |s| ==> s[k] !in drop
    ensures Without(s, drop) == s
  {
    if s != [] {
      var init := s[..|s| - 1];
      assert forall k :: 0 <= k < |init| ==> init[k] == s[k];
      WithoutNothing(init, drop);
      assert s == init + [s[|s| - 1]];
    }
  }

  /** The nodes of a sequence of partitions, partition after partition. */
  function Flatten(ps: seq<Partition>): seq<int>
  {
    if ps == [] then [] else Flatten(ps[..|ps| - 1]) + ps[|ps| - 1]
  }

  /** Whether a partition is a single node whose op is DEQUANTIZE. */
  predicate SingleDequant(p: Partition, dequantOps: set<int>)
  {
    |p| == 1 && p[0] in dequantOps
  }

  /** The partitions that are not a lone dequantize node, in order. */
  function KeptPartitions(ps: seq<Partition>, dequantOps: set<int>): seq<Partition>
  {
    if ps == [] then []
    else
      KeptPartitions(ps[..|ps| - 1], dequantOps)
      + (if SingleDequant(ps[|ps| - 1], dequantOps) then [] else [ps[|ps| - 1]])
  }

  /** The node ids of the lone dequantize partitions. */
  function LoneDequants(ps: seq<Partition>, dequantOps: set<int>): set<int>
  {
    if ps == [] then {}
    else
      LoneDequants(ps[..|ps| - 1], dequantOps)
      + (if SingleDequant(ps[|ps| - 1], dequantOps) then {ps[|ps| - 1][0]} else {})
  }

  /** One more partition: it is kept, or its node is saved. */
  lemma KeptStep(ps: seq<Partition>, j: nat, dequantOps: set<int>)
    requires j < |ps|
    ensures KeptPartitions(ps[..j + 1], dequantOps) ==
      KeptPartitions(ps[..j], dequantOps) + (if SingleDequant(ps[j], dequantOps) then [] else [ps[j]])
    ensures LoneDequants(ps[..j + 1], dequantOps) ==
      LoneDequants(ps[..j], dequantOps) + (if SingleDequant(ps[j], dequantOps) then {ps[j][0]} else {})
  {
    assert ps[..j + 1][..j] == ps[..j];
  }

  /** One dequantize id is saved per partition dropped, and no partition
      kept is a lone dequantize node. */
  lemma {:induction false} KeptPartitionsMeans(ps: seq<Partition>, dequantOps: set<int>)
    ensures forall p :: p in KeptPartitions(ps, dequantOps) <==> p in ps && !SingleDequant(p, dequantOps)
    ensures forall x :: x in LoneDequants(ps, dequantOps) <==> [x] in ps && x in dequantOps
  {
    if ps != [] {
      var init := ps[..|ps| - 1];
      KeptPartitionsMeans(init, dequantOps);
      assert ps == init + [ps[|ps| - 1]];
      forall x
        ensures x in LoneDequants(ps, dequantOps) <==> [x] in ps && x in dequantOps
      {
        if [x] == ps[|ps| - 1] {
          assert ps[|ps| - 1][0] == x;
        }
      }
    }
  }

  /** Partitions ordered by non-increasing size. */
  predicate SortedBySize(ps: seq<Partition>)
  {
    forall i, j :: 0 <= i < j < |ps| ==> |ps[j]| <= |ps[i]|
  }

  /** Puts a partition in front of the first one no larger than it. */
  function InsertBySize(p: Partition, ps: seq<Partition>): (r: seq<Partition>)
    ensures multiset(r) == multiset(ps) + multiset{p}
    ensures |r| == |ps| + 1
  {
    if ps == [] then [p]
    else if |p| >= |ps[0]| then [p] + ps
    else
      var r := [ps[0]] + InsertBySize(p, ps[1..]);
      assert ps == [ps[0]] + ps[1..];
      r
  }

  /** std::list::sort with CompareTwoPartitions: a stable sort into
      non-increasing size (an insertion sort from the back). */
  function SortBySize(ps: seq<Partition>): (r: seq<Partition>)
    ensures multiset(r) == multiset(ps)
    ensures |r| == |ps|
  {
    if ps == [] then []
    else
      var r := InsertBySize(ps[0], SortBySize(ps[1..]));
      assert ps == [ps[0]] + ps[1..];
      r
  }

  /** No partition of `ps` is larger than n. */
  predicate SizesAtMost(ps: seq<Partition>, n: int)
  {
    forall k :: 0 <= k < |ps| ==> |ps[k]| <= n
  }

  lemma {:induction false} InsertBySizeAtMost(p: Partition, ps: seq<Partition>, n: int)
    requires SizesAtMost(ps, n) && |p| <= n
    ensures SizesAtMost(InsertBySize(p, ps), n)
  {
    if ps != [] && |p| < |ps[0]| {
      InsertBySizeAtMost(p, ps[1..], n);
    }
  }

  lemma ConsSorted(x: Partition, t: seq<Partition>)
    requires SortedBySize(t) && SizesAtMost(t, |x|)
    ensures SortedBySize([x] + t)
  {
    var r := [x] + t;
    forall i, j | 0 <= i < j < |r|
      ensures |r[j]| <= |r[i]|
    {
      assert r[j] == t[j - 1];
      if i > 0 {
        assert r[i] == t[i - 1];
      }
    }
  }

  lemma {:induction false} InsertBySizeSorted(p: Partition, ps: seq<Partition>)
    requires SortedBySize(ps)
    ensures SortedBySize(InsertBySize(p, ps))
  {
    if ps == [] {
    } else if |p| >= |ps[0]| {
      ConsSorted(p, ps);
    } else {
      var tail := ps[1..];
      assert SortedBySize(tail) && SizesAtMost(tail, |ps[0]|) by {
        assert forall k :: 0 <= k < |tail| ==> tail[k] == ps[k + 1];
      }
      InsertBySizeSorted(p, tail);
      InsertBySizeAtMost(p, tail, |ps[0]|);
      ConsSorted(ps[0], InsertBySize(p, tail));
    }
  }

  /** The sort orders the partitions by non-increasing size (and, through
      its own contract, keeps exactly the same partitions). */
  lemma {:induction false} SortBySizeSorted(ps: seq<Partition>)
    ensures SortedBySize(SortBySize(ps))
  {
    if ps != [] {
      SortBySizeSorted(ps[1..]);
      InsertBySizeSorted(ps[0], SortBySize(ps[1..]));
    }
  }

  /** Each prefix of a sorted sequence holds partitions at least as large as
      every partition after it. */
  lemma PrefixIsLargest(ps: seq<Partition>, k: nat)
    requires SortedBySize(ps) && k <= |ps|
    ensures forall p, q :: p in ps[..k] && q in ps[k..] ==> |q| <= |p|
  {
    forall p, q | p in ps[..k] && q in ps[k..]
      ensures |q| <= |p|
    {
      var i :| 0 <= i < k && ps[..k][i] == p;
      var j :| 0 <= j < |ps| - k && ps[k..][j] == q;
      assert ps[i] == p && ps[k + j] == q;
    }
  }

  /** The node ids of the partitions, appended one partition after the
      other. */
  method ConcatNodes(ps: seq<Partition>) returns (all: seq<int>)
    ensures all == Flatten(ps)
  {
    all := [];
    var i := 0;
    while i < |ps|
      invariant 0 <= i <= |ps|
      invariant all == Flatten(ps[..i])
    {
      assert ps[..i + 1][..i] == ps[..i];
      all := all + ps[i];
      i := i + 1;
    }
    assert ps[..i] == ps;
  }

  /** GraphPartitionHelper together with its GraphWithDequantPartitionHelper
      refinement. Calls into the TfLite context (the execution plan, node
      lookup, the per-node support test and the partition preview) are
      parameters. */
  class GraphPartitionHelper {
    var numTotalNodes: int
    var supportedNodes: seq<int>
    var partitions: seq<Partition>
    var dequantNodesToSave: set<int>

    constructor ()
      ensures numTotalNodes == 0 && supportedNodes == [] && partitions == [] && dequantNodesToSave == {}
    {
      numTotalNodes := 0;
      supportedNodes := [];
      partitions := [];
      dequantNodesToSave := {};
    }

    /** PrepareSupportedNodes: `plan` is the execution plan (None when it
        cannot be read), `registered` the nodes whose registration can be
        looked up and `supported` those the support test accepts. A failed
        lookup empties the supported list and is InvalidArgument. */
    method PrepareSupportedNodes(plan: Option<seq<int>>, registered: set<int>, supported: set<int>)
      returns (s: Code)
      modifies this
      ensures plan.None? ==>
        s == InvalidArgument && supportedNodes == old(supportedNodes) && numTotalNodes == old(numTotalNodes)
      ensures plan.Some? ==> numTotalNodes == |plan.value|
      ensures s == Ok <==> plan.Some? && forall k :: 0 <= k < |plan.value| ==> plan.value[k] in registered
      ensures s == Ok ==> supportedNodes == Selected(plan.value, supported)
      ensures plan.Some? && s != Ok ==> s == InvalidArgument && supportedNodes == []
      ensures partitions == old(partitions) && dequantNodesToSave == old(dequantNodesToSave)
    {
      if plan.None? {
        return InvalidArgument;
      }
      var nodes := plan.value;
      numTotalNodes := |nodes|;
      var found: seq<int> := [];
      var i := 0;
      while i < |nodes|
        invariant 0 <= i <= |nodes|
        invariant forall k :: 0 <= k < i ==> nodes[k] in registered
        invariant found == Selected(nodes[..i], supported)
      {
        assert nodes[..i + 1][..i] == nodes[..i];
        if nodes[i] !in registered {
          supportedNodes := [];
          return InvalidArgument;
        }
        if nodes[i] in supported {
          found := found + [nodes[i]];
        }
        i := i + 1;
      }
      assert nodes[..i] == nodes;
      supportedNodes := found;
      return Ok;
    }

    /** GraphPartitionHelper::Partition: `preview` stands for
        PreviewDelegatePartitioning of the supported nodes (None when it
        fails, which is InvalidArgument); its partitions are appended. */
    method Partition(plan: Option<seq<int>>, registered: set<int>, supported: set<int>,
                     preview: Option<seq<Partition>>)
      returns (s: Code)
      modifies this
      ensures s == Ok <==> (plan.Some? && (forall k :: 0 <= k < |plan.value| ==> plan.value[k] in registered)
                            && preview.Some?)
      ensures s == Ok ==>
        supportedNodes == Selected(plan.value, supported) && partitions == old(partitions) + preview.value
      ensures s != Ok ==> s == InvalidArgument && partitions == old(partitions)
      ensures dequantNodesToSave == old(dequantNodesToSave)
    {
      s := PrepareSupportedNodes(plan, registered, supported);
      if s != Ok {
        return;
      }
      if preview.None? {
        return InvalidArgument;
      }
      partitions := partitions + preview.value;
    }

    /** RemoveSingleDequantNodePartitions: partitions that are a lone
        DEQUANTIZE node (`dequantOps` holds the nodes with that op) are
        erased in place and their node is recorded as one to keep on the
        CPU. */
    method RemoveSingleDequantNodePartitions(dequantOps: set<int>)
      modifies this
      ensures partitions == KeptPartitions(old(partitions), dequantOps)
      ensures dequantNodesToSave == old(dequantNodesToSave) + LoneDequants(old(partitions), dequantOps)
      ensures numTotalNodes == old(numTotalNodes) && supportedNodes == old(supportedNodes)
    {
      ghost var ps := partitions;
      ghost var j := 0;
      var i := 0;
      while i < |partitions|
        invariant 0 <= j <= |ps| && 0 <= i <= |partitions|
        invariant partitions[..i] == KeptPartitions(ps[..j], dequantOps)
        invariant partitions[i..] == ps[j..]
        invariant dequantNodesToSave == old(dequantNodesToSave) + LoneDequants(ps[..j], dequantOps)
        invariant numTotalNodes == old(numTotalNodes) && supportedNodes == old(supportedNodes)
        decreases |partitions| - i
      {
        assert partitions[i] == ps[j];
        KeptStep(ps, j, dequantOps);
        var p := partitions[i];
        ghost var before := partitions;
        if |p| != 1 || p[0] !in dequantOps {
          assert before[..i + 1] == before[..i] + [p];
          i := i + 1;
        } else {
          dequantNodesToSave := dequantNodesToSave + {p[0]};
          partitions := partitions[..i] + partitions[i + 1..];
          assert partitions[..i] == before[..i] && partitions[i..] == before[i + 1..];
        }
        j := j + 1;
      }
      assert ps[..j] == ps;
      assert partitions[..i] == partitions;
    }

    /** GetFirstNLargestPartitions: the first min(n, total) partitions; when
        fewer than all are asked for, the partitions are first sorted (in
        place) by non-increasing size, so those returned are the largest. */
    method GetFirstNLargestPartitions(n: int) returns (results: seq<Partition>)
      modifies this
      ensures |results| == Max(0, Min(|old(partitions)|, n)) && |partitions| == |old(partitions)|
      ensures n < |old(partitions)| ==> partitions == SortBySize(old(partitions))
      ensures n >= |old(partitions)| ==> partitions == old(partitions) && results == partitions
      ensures results == partitions[..|results|]
      ensures forall p, q :: p in results && q in partitions[|results|..] ==> |q| <= |p|
      ensures multiset(partitions) == multiset(old(partitions))
      ensures numTotalNodes == old(numTotalNodes) && supportedNodes == old(supportedNodes)
      ensures dequantNodesToSave == old(dequantNodesToSave)
    {
      var total := |partitions|;
      if n < total {
        SortBySizeSorted(partitions);
        partitions := SortBySize(partitions);
      }
      var count := Min(total, n);
      results := [];
      var i := 0;
      while i < count
        invariant 0 <= i <= Max(0, count)
        invariant results == partitions[..i]
      {
        results := results + [partitions[i]];
        i := i + 1;
      }
      if n < total {
        PrefixIsLargest(partitions, |results|);
      }
    }

    /** RemoveReservedDequantsFromNodes: the saved dequantize nodes are
        erased from `nodes` in place; the rest keep their order. */
    method RemoveReservedDequantsFromNodes(nodes: seq<int>) returns (r: seq<int>)
      ensures r == Without(nodes, dequantNodesToSave)
    {
      if dequantNodesToSave == {} {
        WithoutNothing(nodes, dequantNodesToSave);
        return nodes;
      }
      r := nodes;
      ghost var j := 0;
      var i := 0;
      while i < |r|
        invariant 0 <= j <= |nodes| && 0 <= i <= |r|
        invariant r[..i] == Without(nodes[..j], dequantNodesToSave)
        invariant r[i..] == nodes[j..]
        decreases |r| - i
      {
        assert r[i] == nodes[j];
        assert nodes[..j + 1][..j] == nodes[..j];
        if r[i] !in dequantNodesToSave {
          i := i + 1;
        } else {
          r := r[..i] + r[i + 1..];
        }
        j := j + 1;
      }
      assert nodes[..j] == nodes;
      assert r[..i] == r;
    }

    /** GetNodesOfFirstNLargestPartitions: the nodes of the first n largest
        partitions, partition after partition, less the saved dequantize
        nodes. */
    method GetNodesOfFirstNLargestPartitions(n: int) returns (ops: seq<int>)
      modifies this
      ensures |partitions| == |old(partitions)|
      ensures var k := Max(0, Min(|old(partitions)|, n));
        ops == Without(Flatten(partitions[..k]), dequantNodesToSave)
      ensures n < |old(partitions)| ==> partitions == SortBySize(old(partitions))
      ensures n >= |old(partitions)| ==> partitions == old(partitions)
      ensures dequantNodesToSave == old(dequantNodesToSave)
    {
      var first := GetFirstNLargestPartitions(n);
      var all := ConcatNodes(first);
      ops := RemoveReservedDequantsFromNodes(all);
    }

    /** GraphWithDequantPartitionHelper::Partition: fp16 dequantize nodes
        count as supported; after partitioning, partitions that are a lone
        dequantize node are dropped whatever the status. */
    method PartitionWithDequant(plan: Option<seq<int>>, registered: set<int>, supported: set<int>,
                                fp16Dequants: set<int>, preview: Option<seq<Partition>>,
                                dequantOps: set<int>)
      returns (s: Code)
      modifies this
      ensures s == Ok <==> (plan.Some? && (forall k :: 0 <= k < |plan.value| ==> plan.value[k] in registered)
                            && preview.Some?)
      ensures s != Ok ==> s == InvalidArgument
      ensures var ps := if s == Ok then old(partitions) + preview.value else old(partitions);
        partitions == KeptPartitions(ps, dequantOps)
        && dequantNodesToSave == old(dequantNodesToSave) + LoneDequants(ps, dequantOps)
    {
      s := Partition(plan, registered, supported + fp16Dequants, preview);
      RemoveSingleDequantNodePartitions(dequantOps);
    }
  }

  /** The nodes of a sequence of partitions are the nodes of its members. */
  lemma {:induction false} FlattenMembers(ps: seq<Partition>, x: int)
    ensures x in Flatten(ps) <==> exists p :: p in ps && x in p
  {
    if ps != [] {
      var init := ps[..|ps| - 1];
      FlattenMembers(init, x);
      assert ps == init + [ps[|ps| - 1]];
    }
  }

  /** The partitions GetNodesOfFirstNLargestPartitions(1) takes from the
      kept partitions: the first after sorting by size, or all of them when
      there are at most one. */
  function LargestKept(preview: seq<Partition>, dequantOps: set<int>): seq<Partition>
  {
    var kept := KeptPartitions(preview, dequantOps);
    if 1 < |kept| then SortBySize(kept)[..1] else kept
  }

  /** The partition taken is one of the kept partitions, none of which is
      larger, and there is one exactly when some partition is kept. */
  lemma LargestKeptIsLargest(preview: seq<Partition>, dequantOps: set<int>)
    ensures var kept := KeptPartitions(preview, dequantOps);
      var r := LargestKept(preview, dequantOps);
      |r| == Min(1, |kept|) &&
      (r != [] ==> r[0] in kept && forall q :: q in kept ==> |q| <= |r[0]|)
  {
    var kept := KeptPartitions(preview, dequantOps);
    if 1 < |kept| {
      var sorted := SortBySize(kept);
      SortBySizeSorted(kept);
      assert sorted[0] in multiset(kept);
      forall q | q in kept
        ensures |q| <= |sorted[0]|
      {
        assert q in multiset(sorted);
        var j :| 0 <= j < |sorted| && sorted[j] == q;
        assert j == 0 || |sorted[j]| <= |sorted[0]|;
      }
    }
  }

  /** GetOpsToReplace: partitions the graph and returns the nodes of the
      largest partition, or None when partitioning fails. Every node
      returned comes from a previewed partition, and none is a lone
      dequantize node, which stays on the CPU. */
  method GetOpsToReplace(plan: Option<seq<int>>, registered: set<int>, supported: set<int>,
                         fp16Dequants: set<int>, preview: Option<seq<Partition>>, dequantOps: set<int>)
    returns (r: Option<seq<int>>)
    ensures r.Some? <==> (plan.Some? && (forall k :: 0 <= k < |plan.value| ==> plan.value[k] in registered)
                          && preview.Some?)
    ensures r.Some? ==>
      r.value == Without(Flatten(LargestKept(preview.value, dequantOps)), LoneDequants(preview.value, dequantOps))
    ensures r.Some? ==> forall x :: x in r.value ==>
      (exists p :: p in preview.value && x in p) && !([x] in preview.value && x in dequantOps)
  {
    var helper := new GraphPartitionHelper();
    var s := helper.PartitionWithDequant(plan, registered, supported, fp16Dequants, preview, dequantOps);
    if s != Ok {
      return None;
    }
    ghost var kept := helper.partitions;
    ghost var save := helper.dequantNodesToSave;
    var ops := helper.GetNodesOfFirstNLargestPartitions(1);
    ghost var k := Max(0, Min(|kept|, 1));
    assert [] + preview.value == preview.value;
    assert {} + LoneDequants(preview.value, dequantOps) == LoneDequants(preview.value, dequantOps);
    assert helper.partitions[..k] == LargestKept(preview.value, dequantOps);
    KeptPartitionsMeans(preview.value, dequantOps);
    WithoutMembers(Flatten(helper.partitions[..k]), save);
    forall x | x in ops
      ensures exists p :: p in preview.value && x in p
    {
      FlattenMembers(helper.partitions[..k], x);
      var p :| p in helper.partitions[..k] && x in p;
      assert p in multiset(helper.partitions);
      assert p in kept;
    }
    r := Some(ops);
  }
}
