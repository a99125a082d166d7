// UnionFind: the properties TensorRT segmentation merges when it unions two
// clusters: batch sizes (a static size and a dynamic flag) and device
// assignments, each merged only when compatible.
module UnionFind {
  import opened Common

  // ---------------------------------------------------------------------
  // Optional values

  /** CheckIfCompatible: two optional values clash only when both are
      present and differ. */
  predicate Compatible<T(==)>(a: Option<T>, b: Option<T>)
  {
    if a.None? && b.None? then true
    else if a.Some? && b.Some? then a.value == b.value
    else true
  }

  lemma CompatibleMeaning<T>(a: Option<T>, b: Option<T>)
    ensures !Compatible(a, b) <==> a.Some? && b.Some? && a.value != b.value
    ensures Compatible(a, b) <==> Compatible(b, a)
    ensures Compatible(a, a) && Compatible(a, None)
  {
  }

  /** MergeCompatible: the second value, once the two are known to be
      compatible. */
  function MergeCompatible<T(==)>(a: Option<T>, b: Option<T>): (r: Option<T>)
    requires Compatible(a, b)
    ensures r == b
    ensures a.Some? && b.Some? ==> r == a
  {
    b
  }

  // ---------------------------------------------------------------------
  // Batch sizes as values

  /** The batch size of a cluster: whether some member has a dynamic batch
      dimension, and the static batch size if one is known. */
  datatype BatchSize = BatchSize(hasDynamic: bool, staticSize: Option<int>)

  /** What MergeIfCompatible leaves, or None when it refuses: a clash of
      static sizes fails; otherwise the other's static size wins if it has
      one, and the dynamic flag is the disjunction. */
  function MergedBatchSize(a: BatchSize, b: BatchSize): (r: Option<BatchSize>)
    ensures r.None? <==> !Compatible(a.staticSize, b.staticSize)
    ensures r.Some? ==> r.value.hasDynamic == (a.hasDynamic || b.hasDynamic)
    ensures r.Some? ==> r.value.staticSize == (if b.staticSize.Some? then b.staticSize else a.staticSize)
  {
    if !Compatible(a.staticSize, b.staticSize) then None
    else
      var s := if b.staticSize.Some? then b.staticSize else a.staticSize;
      Some(BatchSize(a.hasDynamic || b.hasDynamic, s))
  }

  /** Merging does not depend on the order of the two clusters. */
  lemma MergeCommutes(a: BatchSize, b: BatchSize)
    ensures MergedBatchSize(a, b) == MergedBatchSize(b, a)
  {
  }

  /** Merging a cluster's batch size with itself changes nothing. */
  lemma MergeIdempotent(a: BatchSize)
    ensures MergedBatchSize(a, a) == Some(a)
  {
  }

  /** An unconstrained batch size is a unit for merging. */
  lemma MergeUnit(a: BatchSize)
    ensures MergedBatchSize(BatchSize(false, None), a) == Some(a)
    ensures MergedBatchSize(a, BatchSize(false, None)) == Some(a)
  {
  }

  /** Merging three clusters gives the same result, or the same refusal,
      whichever two are merged first. */
  lemma MergeAssociative(a: BatchSize, b: BatchSize, c: BatchSize)
    ensures var ab := MergedBatchSize(a, b);
            var bc := MergedBatchSize(b, c);
            (if ab.Some? then MergedBatchSize(ab.value, c) else None) ==
            (if bc.Some? then MergedBatchSize(a, bc.value) else None)
  {
  }

  /** The text ToString produces: the two flags as 1 or 0, then the static
      size if there is one. */
  function BatchSizeString(b: BatchSize): (r: string)
  {
    "batch_size=(" + Flag(b.hasDynamic) + "," + Flag(b.staticSize.Some?)
      + (if b.staticSize.Some? then "," + IntToString(b.staticSize.value) else "") + ")"
  }

  /** A bool printed with %d. */
  function Flag(x: bool): (r: string)
    ensures |r| == 1 && (r == "1" <==> x)
  {
    if x then "1" else "0"
  }

  /** Where the parts of a batch size sit in its text. */
  lemma BatchSizeStringParts(b: BatchSize)
    ensures var s := BatchSizeString(b);
      && |s| >= 16 && s[12] == Flag(b.hasDynamic)[0] && s[14] == Flag(b.staticSize.Some?)[0]
      && (b.staticSize.Some? ==> s[16..|s| - 1] == IntToString(b.staticSize.value))
  {
    var head := "batch_size=(" + Flag(b.hasDynamic) + "," + Flag(b.staticSize.Some?);
    var tail := if b.staticSize.Some? then "," + IntToString(b.staticSize.value) else "";
    var s := BatchSizeString(b);
    assert |head| == 15;
    assert s == head + tail + ")";
    assert s[12] == head[12] && s[14] == head[14];
    if b.staticSize.Some? {
      assert s[16..|s| - 1] == tail[1..];
    }
  }

  /** Different batch sizes print differently. */
  lemma BatchSizeStringInjective(a: BatchSize, b: BatchSize)
    requires BatchSizeString(a) == BatchSizeString(b)
    ensures a == b
  {
    BatchSizeStringParts(a);
    BatchSizeStringParts(b);
    assert a.hasDynamic == b.hasDynamic;
    assert a.staticSize.Some? == b.staticSize.Some?;
    if a.staticSize.Some? {
      IntToStringInjective(a.staticSize.value, b.staticSize.value);
    }
  }

  // ---------------------------------------------------------------------
  // ClusterBatchSize

  class ClusterBatchSize {
    var hasDynamicBatchSize: bool
    var staticBatchSize: Option<int>

    function Value(): BatchSize
      reads this
    {
      BatchSize(hasDynamicBatchSize, staticBatchSize)
    }

    /** No dynamic dimension and no static size. */
    constructor ()
      ensures Value() == BatchSize(false, None)
    {
      hasDynamicBatchSize := false;
      staticBatchSize := None;
    }

    /** A copy of a batch size value. */
    constructor Of(b: BatchSize)
      ensures Value() == b
    {
      hasDynamicBatchSize := b.hasDynamic;
      staticBatchSize := b.staticSize;
    }

    /** operator==: both the flag and the static size agree. */
    predicate Equals(other: ClusterBatchSize)
      reads this, other
      ensures Equals(other) <==> Value() == other.Value()
    {
      hasDynamicBatchSize == other.hasDynamicBatchSize && staticBatchSize == other.staticBatchSize
    }

    /** GetStaticBatchSize DCHECKs that there is one. */
    function GetStaticBatchSize(): (r: int)
      reads this
      requires staticBatchSize.Some?
      ensures Some(r) == staticBatchSize
    {
      staticBatchSize.value
    }

    /** SetBatchSize: a negative size marks the cluster dynamic and leaves
        the static size alone; any other becomes the static size, which the
        DCHECK requires to be compatible with the one already there. */
    method SetBatchSize(batchSize: int)
      requires batchSize < 0 || Compatible(staticBatchSize, Some(batchSize))
      modifies this
      ensures batchSize < 0 ==> Value() == old(Value()).(hasDynamic := true)
      ensures batchSize >= 0 ==> Value() == old(Value()).(staticSize := Some(batchSize))
    {
      if batchSize < 0 {
        hasDynamicBatchSize := true;
        return;
      }
      staticBatchSize := MergeCompatible(staticBatchSize, Some(batchSize));
    }

    /** MergeIfCompatible: refuses, changing nothing, when the static sizes
        clash; otherwise becomes the merged batch size. */
    method MergeIfCompatible(other: BatchSize) returns (merged: bool)
      modifies this
      ensures merged <==> Compatible(old(staticBatchSize), other.staticSize)
      ensures !merged ==> Value() == old(Value())
      ensures merged ==> Some(Value()) == MergedBatchSize(old(Value()), other)
    {
      if !Compatible(staticBatchSize, other.staticSize) {
        return false;
      }
      if other.staticSize.Some? {
        staticBatchSize := Some(other.staticSize.value);
      }
      if other.hasDynamic {
        hasDynamicBatchSize := true;
      }
      return true;
    }

    /** ToString, as BatchSizeString describes. */
    function ToString(): string
      reads this
    {
      BatchSizeString(Value())
    }
  }

  // ---------------------------------------------------------------------
  // ClusterProperty

  /** The properties of a cluster: its batch size and its device. The rule
      that merges two device names is DeviceNameUtils', not part of this
      model, and is passed in. */
  class ClusterProperty<Device> {
    var batchSize: BatchSize
    var deviceName: Device

    constructor (batchSize: BatchSize, deviceName: Device)
      ensures this.batchSize == batchSize && this.deviceName == deviceName
    {
      this.batchSize := batchSize;
      this.deviceName := deviceName;
    }

    /** Merge: both parts are merged into copies first, and only when both
        succeed are they committed; either failure is an Internal error
        that leaves the cluster as it was. */
    method Merge(otherBatchSize: BatchSize, otherDevice: Device,
                 mergeDevices: (Device, Device) -> Option<Device>) returns (status: Code)
      modifies this
      ensures var b := MergedBatchSize(old(batchSize), otherBatchSize);
              var d := mergeDevices(old(deviceName), otherDevice);
              if b.Some? && d.Some? then
                status == Ok && batchSize == b.value && deviceName == d.value
              else
                status == Internal && batchSize == old(batchSize) && deviceName == old(deviceName)
      ensures MergedBatchSize(old(batchSize), otherBatchSize).None? ==> status == Internal
    {
      var merged := new ClusterBatchSize.Of(batchSize);
      var ok := merged.MergeIfCompatible(otherBatchSize);
      if !ok {
        return Internal;
      }
      var mergedDevice := mergeDevices(deviceName, otherDevice);
      if mergedDevice.None? {
        return Internal;
      }
      batchSize := merged.Value();
      deviceName := mergedDevice.value;
      return Ok;
    }
  }
}
