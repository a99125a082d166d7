// Conversion between TensorFlow eager tensor handles and DLPack tensors:
// the data-type and device mappings in both directions, the shape and
// compact row-major strides a handle is exported with, the stride check on
// import and the imported byte size. Device memory and reference counting
// are abstract.
module Dlpack {
  import opened Common

  // ---------------------------------------------------------------------
  // Data types
  // ---------------------------------------------------------------------

  datatype TfDataType =
    | TfFloat | TfDouble | TfInt32 | TfUint8 | TfInt16 | TfInt8 | TfString
    | TfComplex64 | TfInt64 | TfBool | TfQint8 | TfQuint8 | TfQint32
    | TfBfloat16 | TfQint16 | TfQuint16 | TfUint16 | TfComplex128 | TfHalf
    | TfResource | TfVariant | TfUint32 | TfUint64

  /** TF_DataTypeSize: bytes per element, 0 for types without a fixed size. */
  function DataTypeSize(t: TfDataType): nat
  {
    match t
    case TfFloat => 4 case TfDouble => 8 case TfInt32 => 4 case TfUint8 => 1
    case TfInt16 => 2 case TfInt8 => 1 case TfString => 0 case TfComplex64 => 8
    case TfInt64 => 8 case TfBool => 1 case TfQint8 => 1 case TfQuint8 => 1
    case TfQint32 => 4 case TfBfloat16 => 2 case TfQint16 => 2 case TfQuint16 => 2
    case TfUint16 => 2 case TfComplex128 => 16 case TfHalf => 2
    case TfResource => 0 case TfVariant => 0 case TfUint32 => 4 case TfUint64 => 8
  }

  /** DLDataTypeCode values. */
  const KDLInt: int := 0
  const KDLUInt: int := 1
  const KDLFloat: int := 2
  const KDLBfloat: int := 4

  datatype DLDataType = DLDataType(code: int, bits: int, lanes: int)

  /** The DLPack type code of a TensorFlow type DLPack can carry. */
  function DlCode(t: TfDataType): Option<int>
  {
    match t
    case TfHalf => Some(KDLFloat) case TfFloat => Some(KDLFloat) case TfDouble => Some(KDLFloat)
    case TfInt8 => Some(KDLInt) case TfInt16 => Some(KDLInt)
    case TfInt32 => Some(KDLInt) case TfInt64 => Some(KDLInt)
    case TfBool => Some(KDLUInt) case TfUint8 => Some(KDLUInt) case TfUint16 => Some(KDLUInt)
    case TfUint32 => Some(KDLUInt) case TfUint64 => Some(KDLUInt)
    case TfBfloat16 => Some(KDLBfloat)
    case _ => None
  }

  /** GetDLDataType: one lane of 8 * size bits with the type's code; types
      DLPack cannot carry are InvalidArgument. */
  function GetDLDataType(t: TfDataType): (r: Result<DLDataType>)
    ensures r.Success? <==> DlCode(t).Some?
    ensures r.Failure? ==> r.code == InvalidArgument
    ensures r.Success? ==> r.value.lanes == 1 && r.value.bits == 8 * DataTypeSize(t)
  {
    match DlCode(t)
    case Some(code) => Success(DLDataType(code, DataTypeSize(t) * 8, 1))
    case None => Failure(InvalidArgument)
  }

  /** TfDataTypeFormDlDataType: the TensorFlow type of a DLPack code and bit
      width; the lanes are not looked at. */
  function TfDataTypeFromDlDataType(d: DLDataType): Result<TfDataType>
  {
    if d.code == KDLUInt then
      if d.bits == 8 then Success(TfUint8)
      else if d.bits == 16 then Success(TfUint16)
      else if d.bits == 32 then Success(TfUint32)
      else if d.bits == 64 then Success(TfUint64)
      else Failure(InvalidArgument)
    else if d.code == KDLInt then
      if d.bits == 8 then Success(TfInt8)
      else if d.bits == 16 then Success(TfInt16)
      else if d.bits == 32 then Success(TfInt32)
      else if d.bits == 64 then Success(TfInt64)
      else Failure(InvalidArgument)
    else if d.code == KDLFloat then
      if d.bits == 16 then Success(TfHalf)
      else if d.bits == 32 then Success(TfFloat)
      else if d.bits == 64 then Success(TfDouble)
      else Failure(InvalidArgument)
    else if d.code == KDLBfloat then
      if d.bits == 16 then Success(TfBfloat16) else Failure(InvalidArgument)
    else Failure(InvalidArgument)
  }

  /** The type an exported tensor comes back as: itself, except that
      booleans come back as 8-bit unsigned integers. */
  function RoundTripType(t: TfDataType): TfDataType
  {
    if t == TfBool then TfUint8 else t
  }

  /** Exporting then importing a data type gives the same type back, except
      that TF_BOOL comes back as TF_UINT8. */
  lemma DataTypeRoundTrip(t: TfDataType)
    requires DlCode(t).Some?
    ensures TfDataTypeFromDlDataType(GetDLDataType(t).value) == Success(RoundTripType(t))
  {
  }

  /** Importing then exporting a DLPack type gives the same code and bit
      width back; an import fails exactly on the unsupported (code, bits)
      pairs, all with InvalidArgument. */
  lemma DlDataTypeRoundTrip(d: DLDataType)
    ensures match TfDataTypeFromDlDataType(d)
            case Success(t) =>
              GetDLDataType(t) == Success(DLDataType(d.code, d.bits, 1)) && t != TfBool
            case Failure(c) =>
              c == InvalidArgument &&
              !(d.code in {KDLUInt, KDLInt} && d.bits in {8, 16, 32, 64}) &&
              !(d.code == KDLFloat && d.bits in {16, 32, 64}) &&
              !(d.code == KDLBfloat && d.bits == 16)
  {
  }

  // ---------------------------------------------------------------------
  // Devices
  // ---------------------------------------------------------------------

  /** DLDeviceType values. */
  const KDLCPU: int := 1
  const KDLGPU: int := 2

  datatype DLContext = DLContext(deviceType: int, deviceId: int)

  /** GetDLContext from the parsed device name: CPU or GPU, with the
      parsed id or -1 without one; other device types are
      InvalidArgument. */
  function GetDLContext(deviceType: string, hasId: bool, id: int): (r: Result<DLContext>)
    ensures r.Success? <==> deviceType == "CPU" || deviceType == "GPU"
    ensures r.Success? ==> r.value.deviceId == (if hasId then id else -1)
    ensures r.Failure? ==> r.code == InvalidArgument
  {
    var deviceId := if hasId then id else -1;
    if deviceType == "CPU" then Success(DLContext(KDLCPU, deviceId))
    else if deviceType == "GPU" then Success(DLContext(KDLGPU, deviceId))
    else Failure(InvalidArgument)
  }

  /** DeviceNameFromDlContext. */
  function DeviceNameFromDlContext(ctx: DLContext): Option<string>
  {
    if ctx.deviceType == KDLCPU then Some("CPU:0")
    else if ctx.deviceType == KDLGPU then Some("GPU:" + IntToString(ctx.deviceId))
    else None
  }

  /** A CPU context is always named CPU:0, a GPU context GPU:<id>, and no
      other device has a name; distinct GPU ids give distinct names, and no
      GPU name is the CPU's. */
  lemma DeviceNames(a: DLContext, b: DLContext)
    ensures DeviceNameFromDlContext(a).Some? <==> a.deviceType in {KDLCPU, KDLGPU}
    ensures a.deviceType == KDLGPU && b.deviceType == KDLGPU ==>
              (DeviceNameFromDlContext(a) == DeviceNameFromDlContext(b) <==> a.deviceId == b.deviceId)
    ensures a.deviceType == KDLCPU && b.deviceType == KDLGPU ==>
              DeviceNameFromDlContext(a) != DeviceNameFromDlContext(b)
  {
    if a.deviceType == KDLGPU && b.deviceType == KDLGPU &&
       DeviceNameFromDlContext(a) == DeviceNameFromDlContext(b) {
      var na, nb := "GPU:" + IntToString(a.deviceId), "GPU:" + IntToString(b.deviceId);
      assert na[4..] == IntToString(a.deviceId) && nb[4..] == IntToString(b.deviceId);
      IntToStringInjective(a.deviceId, b.deviceId);
    }
    if a.deviceType == KDLCPU && b.deviceType == KDLGPU {
      assert DeviceNameFromDlContext(a).value[0] != DeviceNameFromDlContext(b).value[0];
    }
  }

  // ---------------------------------------------------------------------
  // Strides
  // ---------------------------------------------------------------------

  /** Compact row-major strides: each dimension's stride is the product of
      the dimensions after it. */
  function RowMajorStrides(shape: seq<int>): (r: seq<int>)
    ensures |r| == |shape|
    ensures forall i :: 0 <= i < |r| ==> r[i] == Product(shape[i + 1..])
  {
    seq(|shape|, i requires 0 <= i < |shape| => Product(shape[i + 1..]))
  }

  /** The product of a suffix is its first dimension times the product of
      the rest. */
  lemma ProductSuffix(shape: seq<int>, i: int)
    requires 0 <= i < |shape|
    ensures Product(shape[i..]) == shape[i] * Product(shape[i + 1..])
  {
    assert shape[i..][1..] == shape[i + 1..];
  }

  /** Each stride is the next dimension times the next stride (the relation
      the stride check tests). */
  predicate StridesChained(shape: seq<int>, strides: seq<int>)
    requires |strides| == |shape|
  {
    forall i :: 0 <= i < |shape| - 1 ==> strides[i] == shape[i + 1] * strides[i + 1]
  }

  /** Compact row-major strides end in 1 and are chained, and they are the
      only strides that are. */
  lemma RowMajorStridesExact(shape: seq<int>, strides: seq<int>)
    requires |strides| == |shape|
    ensures strides == RowMajorStrides(shape) <==>
              StridesChained(shape, strides) && (|shape| > 0 ==> strides[|shape| - 1] == 1)
  {
    var r := RowMajorStrides(shape);
    forall i | 0 <= i < |shape| - 1
      ensures r[i] == shape[i + 1] * r[i + 1]
    {
      ProductSuffix(shape, i + 1);
    }
    assert |shape| > 0 ==> shape[|shape|..] == [];
    if StridesChained(shape, strides) && (|shape| > 0 ==> strides[|shape| - 1] == 1) {
      ChainedFromEnd(shape, strides, r, 0);
    }
  }

  /** Two chained stride sequences that agree at the end agree from `k` on. */
  lemma {:induction false} ChainedFromEnd(shape: seq<int>, s: seq<int>, t: seq<int>, k: nat)
    requires |s| == |shape| && |t| == |shape| && k <= |shape|
    requires StridesChained(shape, s) && StridesChained(shape, t)
    requires |shape| > 0 ==> s[|shape| - 1] == t[|shape| - 1]
    ensures s[k..] == t[k..]
    decreases |shape| - k
  {
    if k < |shape| - 1 {
      ChainedFromEnd(shape, s, t, k + 1);
      assert s[k + 1] == t[k + 1] by { assert s[k + 1..][0] == t[k + 1..][0]; }
      assert s[k..] == [s[k]] + s[k + 1..];
      assert t[k..] == [t[k]] + t[k + 1..];
    } else if k == |shape| - 1 {
      assert s[k..] == [s[k]] && t[k..] == [t[k]];
    }
  }

  /** The stride array TFEHandleToTfDlManagedTensorCtx fills: all ones,
      then from the second-to-last dimension down, each stride is the next
      dimension times the next stride. */
  method ExportStrides(shape: seq<int>) returns (strides: array<int>)
    ensures fresh(strides)
    ensures strides[..] == RowMajorStrides(shape)
  {
    strides := new int[|shape|](_ => 1);
    var k := if |shape| == 0 then 0 else |shape| - 1;
    assert |shape| > 0 ==> shape[|shape|..] == [];
    while k > 0
      invariant 0 <= k <= |shape| && (|shape| > 0 ==> k < |shape|)
      invariant forall j :: k <= j < |shape| ==> strides[j] == Product(shape[j + 1..])
    {
      k := k - 1;
      ProductSuffix(shape, k + 1);
      strides[k] := shape[k + 1] * strides[k + 1];
    }
  }

  /** IsValidStrideCompactRowMajorData as written: from the second-to-last
      dimension down, each stride must be the next dimension times the next
      stride. The last stride itself is never checked. */
  method IsValidStrideCompactRowMajorData(shape: seq<int>, strides: seq<int>) returns (valid: bool)
    requires |strides| == |shape|
    ensures valid <==> StridesChained(shape, strides)
  {
    var k := if |shape| == 0 then 0 else |shape| - 1;
    while k > 0
      invariant 0 <= k <= |shape| && (|shape| > 0 ==> k < |shape|)
      invariant forall j :: k <= j < |shape| - 1 ==> strides[j] == shape[j + 1] * strides[j + 1]
    {
      k := k - 1;
      if strides[k] != shape[k + 1] * strides[k + 1] {
        return false;
      }
    }
    return true;
  }

  /** What the check as written accepts: any multiple of the compact
      row-major strides, the multiple being the last stride. */
  lemma {:induction false} ChainedIsScaledRowMajor(shape: seq<int>, strides: seq<int>, k: nat)
    requires |strides| == |shape| && k <= |shape|
    requires StridesChained(shape, strides)
    ensures forall j :: k <= j < |shape| ==> strides[j] == strides[|shape| - 1] * Product(shape[j + 1..])
    decreases |shape| - k
  {
    if k < |shape| {
      ChainedIsScaledRowMajor(shape, strides, k + 1);
      if k < |shape| - 1 {
        ProductSuffix(shape, k + 1);
      } else {
        assert shape[k + 1..] == [];
      }
    }
  }

  /** The check as written lets non-compact strides through: for shape
      [2, 3] it accepts the strides [6, 2] of a tensor whose rows are read
      with a step of 2, which are not the compact strides [3, 1]. */
  lemma StrideCheckAcceptsNonCompact()
    ensures StridesChained([2, 3], [6, 2])
    ensures [6, 2] != RowMajorStrides([2, 3])
  {
    assert RowMajorStrides([2, 3])[1] == Product([]) == 1;
  }

  /** The evidently intended check: the strides are chained and the last
      stride is 1, which holds exactly for the compact row-major strides. */
  method IsCompactRowMajorData(shape: seq<int>, strides: seq<int>) returns (valid: bool)
    requires |strides| == |shape|
    ensures valid <==> strides == RowMajorStrides(shape)
  {
    RowMajorStridesExact(shape, strides);
    valid := IsValidStrideCompactRowMajorData(shape, strides);
    if |shape| > 0 && strides[|shape| - 1] != 1 {
      valid := false;
    }
  }

  // ---------------------------------------------------------------------
  // Export and import
  // ---------------------------------------------------------------------

  /** A local TensorFlow tensor handle: its parsed device name, data type
      and dimensions. */
  datatype TensorHandle = TensorHandle(deviceType: string, hasId: bool, id: int,
                                       dtype: TfDataType, dims: seq<int>)

  /** The DLTensor fields the conversion sets; `strides` None is a null
      strides pointer. The data pointer is not modelled. */
  datatype DLTensor = DLTensor(ctx: DLContext, ndim: int, dtype: DLDataType,
                               shape: seq<int>, strides: Option<seq<int>>, byteOffset: int)

  /** The DLTensor a handle is exported as, and the status left behind: a
      device other than CPU or GPU, or a type DLPack cannot carry, leaves
      InvalidArgument while the tensor is still filled in. */
  function Exported(h: TensorHandle): (DLTensor, Code)
  {
    var ctx := GetDLContext(h.deviceType, h.hasId, h.id);
    var dtype := GetDLDataType(h.dtype);
    var status := if ctx.Failure? || dtype.Failure? then InvalidArgument else Ok;
    (DLTensor(if ctx.Success? then ctx.value else DLContext(0, if h.hasId then h.id else -1),
              |h.dims|,
              if dtype.Success? then dtype.value else DLDataType(0, 8 * DataTypeSize(h.dtype), 1),
              h.dims, Some(RowMajorStrides(h.dims)), 0),
     status)
  }

  /** TFE_HandleToDLPack: copy the dimensions into the shape and fill the
      strides. */
  method HandleToDLPack(h: TensorHandle) returns (t: DLTensor, status: Code)
    ensures (t, status) == Exported(h)
  {
    var shape := new int[|h.dims|];
    var i := 0;
    while i < |h.dims|
      invariant 0 <= i <= |h.dims|
      invariant forall j :: 0 <= j < i ==> shape[j] == h.dims[j]
    {
      shape[i] := h.dims[i];
      i := i + 1;
    }
    assert shape[..] == h.dims;
    var strides := ExportStrides(shape[..]);
    var e := Exported(h);
    t := e.0.(shape := shape[..], strides := Some(strides[..]));
    status := e.1;
  }

  /** The total byte size of an imported tensor: bits / 8 bytes per element
      times the product of the dimensions. */
  method TotalBytes(bits: nat, dims: seq<int>) returns (total: int)
    ensures total == (bits / 8) * Product(dims)
  {
    total := bits / 8;
    var i := 0;
    while i < |dims|
      invariant 0 <= i <= |dims|
      invariant total == (bits / 8) * Product(dims[..i])
    {
      ProductAppend(dims[..i], dims[i]);
      assert dims[..i + 1] == dims[..i] + [dims[i]];
      total := total * dims[i];
      i := i + 1;
    }
    assert dims[..i] == dims;
  }

  /** What TFE_NewTensorHandleFromDeviceMemory is asked for. */
  datatype ImportedHandle = ImportedHandle(deviceName: string, dtype: TfDataType,
                                           dims: seq<int>, totalBytes: int)

  predicate WellFormed(t: DLTensor)
  {
    t.ndim == |t.shape| && 0 <= t.dtype.bits && (t.strides.Some? ==> |t.strides.value| == |t.shape|)
  }

  /** TFE_HandleFromDLPack: a device without a name, a type TensorFlow
      cannot hold, or strides that are not compact row-major are
      InvalidArgument. */
  function Imported(t: DLTensor): Result<ImportedHandle>
    requires WellFormed(t)
  {
    var name := DeviceNameFromDlContext(t.ctx);
    var dtype := TfDataTypeFromDlDataType(t.dtype);
    if name.None? then Failure(InvalidArgument)
    else if dtype.Failure? then Failure(dtype.code)
    else if t.strides.Some? && t.strides.value != RowMajorStrides(t.shape) then Failure(InvalidArgument)
    else Success(ImportedHandle(name.value, dtype.value, t.shape, (t.dtype.bits / 8) * Product(t.shape)))
  }

  method HandleFromDLPack(t: DLTensor) returns (r: Result<ImportedHandle>)
    requires WellFormed(t)
    ensures r == Imported(t)
  {
    var name := DeviceNameFromDlContext(t.ctx);
    if name.None? {
      return Failure(InvalidArgument);
    }
    var dtype := TfDataTypeFromDlDataType(t.dtype);
    if dtype.Failure? {
      return Failure(dtype.code);
    }
    var total := TotalBytes(t.dtype.bits, t.shape);
    if t.strides.Some? {
      var valid := IsCompactRowMajorData(t.shape, t.strides.value);
      if !valid {
        return Failure(InvalidArgument);
      }
    }
    return Success(ImportedHandle(name.value, dtype.value, t.shape, total));
  }

  /** A handle exported without error imports back on the same device
      (CPU:0, or GPU:<id>), with the same dimensions, the same type (bool
      coming back as uint8), and its element size times the element count
      as the byte size. */
  lemma ExportImportRoundTrip(h: TensorHandle)
    requires Exported(h).1 == Ok
    ensures WellFormed(Exported(h).0)
    ensures Imported(Exported(h).0) ==
              Success(ImportedHandle(
                if h.deviceType == "CPU" then "CPU:0" else "GPU:" + IntToString(if h.hasId then h.id else -1),
                RoundTripType(h.dtype), h.dims, DataTypeSize(h.dtype) * Product(h.dims)))
  {
    DataTypeRoundTrip(h.dtype);
    assert (8 * DataTypeSize(h.dtype)) / 8 == DataTypeSize(h.dtype);
  }
}
