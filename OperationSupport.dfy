// OperationSupport: the operand storage of an operation (set, erase and
// capacity growth in place) and the region list of an operation state.
module OperationSupport {
  import opened Common
  import Attributes

  /** An operand is a reference to an SSA value; values are identified by
      number. */
  type Value = int

  // ---------------------------------------------------------------------
  // llvm::NextPowerOf2

  predicate IsPowerOf2(n: nat)
  {
    n == 1 || (n > 1 && n % 2 == 0 && IsPowerOf2(n / 2))
  }

  /** The smallest power of two strictly greater than a. */
  function NextPowerOf2(a: nat): (r: nat)
    ensures r > a && IsPowerOf2(r)
    ensures r <= 2 * a + 1
  {
    if a == 0 then 1 else 2 * NextPowerOf2(a / 2)
  }

  /** No power of two lies strictly between a and NextPowerOf2(a). */
  lemma {:induction false} NextPowerOf2Least(a: nat, p: nat)
    requires IsPowerOf2(p) && p > a
    ensures NextPowerOf2(a) <= p
  {
    if a > 0 {
      assert p > 1;
      NextPowerOf2Least(a / 2, p / 2);
    }
  }

  /** The capacity chosen by grow. */
  function GrownCapacity(capacity: nat, minSize: nat): (r: nat)
    ensures r >= minSize && r > capacity + 2
  {
    Max(NextPowerOf2(capacity + 2), minSize)
  }

  // ---------------------------------------------------------------------
  // Erasing one operand

  /** The operand list without the operand at index. */
  function Erased(ops: seq<Value>, index: nat): (r: seq<Value>)
    requires index < |ops|
    ensures |r| == |ops| - 1
    ensures forall k :: 0 <= k < index ==> r[k] == ops[k]
    ensures forall k :: index <= k < |r| ==> r[k] == ops[k + 1]
  {
    ops[..index] + ops[index + 1..]
  }

  /** Putting the erased operand back at its index restores the list. */
  lemma ErasedReinsert(ops: seq<Value>, index: nat)
    requires index < |ops|
    ensures Erased(ops, index)[..index] + [ops[index]] + Erased(ops, index)[index..] == ops
  {
    var r := Erased(ops, index);
    var back := r[..index] + [ops[index]] + r[index..];
    assert |back| == |ops|;
    forall k | 0 <= k < |ops| ensures back[k] == ops[k] {
      if k > index {
        assert back[k] == r[k - 1];
      }
    }
  }

  /** The operands left by eraseOperand as written: after the count is
      decremented the rotation stops one short of the end, so the erased
      operand moves to the last kept position and the old last operand is
      the one destroyed. */
  function ErasedAsWritten(ops: seq<Value>, index: nat): (r: seq<Value>)
    requires index < |ops|
    ensures |r| == |ops| - 1
    ensures index < |ops| - 1 ==> r[|ops| - 2] == ops[index]
  {
    if index == |ops| - 1 then ops[..index]
    else ops[..index] + ops[index + 1..|ops| - 1] + [ops[index]]
  }

  /** A list that agrees with ErasedAsWritten element by element is it. */
  lemma AsWrittenElementwise(ops: seq<Value>, r: seq<Value>, index: nat)
    requires index < |ops| - 1 && |r| == |ops| - 1
    requires forall k :: 0 <= k < index ==> r[k] == ops[k]
    requires forall k :: index <= k < |r| - 1 ==> r[k] == ops[k + 1]
    requires r[|r| - 1] == ops[index]
    ensures r == ErasedAsWritten(ops, index)
  {
    var w := ErasedAsWritten(ops, index);
    forall k | 0 <= k < |r| ensures r[k] == w[k] {
      if k < index {
        assert w[k] == ops[..index][k];
      } else if k < |r| - 1 {
        assert w[k] == ops[index + 1..|ops| - 1][k - index];
      }
    }
  }

  /** Two operands, erase the first: the code as written keeps it and loses
      the second. */
  lemma EraseFirstOfTwoAsWritten()
    ensures ErasedAsWritten([1, 2], 0) == [1]
    ensures Erased([1, 2], 0) == [2]
  {
    assert [1, 2][..0] + [1, 2][1..1] + [[1, 2][0]] == [1];
  }

  /** Both agree when the last operand is erased. */
  lemma EraseLastAgrees(ops: seq<Value>)
    requires |ops| > 0
    ensures ErasedAsWritten(ops, |ops| - 1) == Erased(ops, |ops| - 1)
  {
    assert ops[|ops|..] == [];
  }

  /** std::rotate(first, first + 1, last): the element at first moves to
      last - 1 and the ones after it move down by one. */
  method RotateLeft(a: array<Value>, first: nat, last: nat)
    requires first < last <= a.Length
    modifies a
    ensures forall k :: 0 <= k < first ==> a[k] == old(a[k])
    ensures forall k :: first <= k < last - 1 ==> a[k] == old(a[k + 1])
    ensures a[last - 1] == old(a[first])
    ensures forall k :: last <= k < a.Length ==> a[k] == old(a[k])
  {
    var moved := a[first];
    var j := first;
    while j < last - 1
      invariant first <= j <= last - 1
      invariant forall k :: 0 <= k < first ==> a[k] == old(a[k])
      invariant forall k :: first <= k < j ==> a[k] == old(a[k + 1])
      invariant forall k :: j <= k < a.Length ==> a[k] == old(a[k])
    {
      a[j] := a[j + 1];
      j := j + 1;
    }
    a[last - 1] := moved;
  }

  // ---------------------------------------------------------------------
  // OperandStorage

  /** The operands of an operation in a buffer whose length is the
      capacity; only resizable storage may hold more operands than it did
      at creation. */
  class OperandStorage {
    var storage: array<Value>
    var numOperands: nat
    const resizable: bool

    ghost predicate Valid()
      reads this
    {
      numOperands <= storage.Length
    }

    function Operands(): seq<Value>
      reads this, storage
      requires Valid()
    {
      storage[..numOperands]
    }

    function Capacity(): nat
      reads this
    {
      storage.Length
    }

    /** Storage holding exactly the given operands. */
    constructor (operands: seq<Value>, resizable: bool)
      ensures Valid() && Operands() == operands && Capacity() == |operands|
      ensures this.resizable == resizable
    {
      storage := new Value[|operands|](i requires 0 <= i < |operands| => operands[i]);
      numOperands := |operands|;
      this.resizable := resizable;
      new;
      assert storage[..] == operands;
    }

    /** setOperands: no more operands than held are written in place;
        more need resizable storage, grown when the capacity is short. */
    method SetOperands(operands: seq<Value>)
      requires Valid()
      requires |operands| > numOperands ==> resizable
      modifies this, storage
      ensures Valid() && Operands() == operands
      ensures old(Capacity()) >= |operands| ==> storage == old(storage)
      ensures old(Capacity()) < |operands| ==> Capacity() == GrownCapacity(old(Capacity()), |operands|)
    {
      if |operands| <= numOperands {
        numOperands := |operands|;
        for i := 0 to numOperands
          modifies storage
          invariant forall k :: 0 <= k < i ==> storage[k] == operands[k]
        {
          storage[i] := operands[i];
        }
        assert storage[..numOperands] == operands;
        return;
      }
      if storage.Length < |operands| {
        Grow(|operands|);
      }
      assert storage == old(storage) || fresh(storage);
      assert |operands| <= storage.Length;
      for i := 0 to numOperands
        modifies storage
        invariant forall k :: 0 <= k < i ==> storage[k] == operands[k]
      {
        storage[i] := operands[i];
      }
      while numOperands != |operands|
        modifies this`numOperands, storage
        invariant numOperands <= |operands| <= storage.Length
        invariant forall k :: 0 <= k < numOperands ==> storage[k] == operands[k]
      {
        storage[numOperands] := operands[numOperands];
        numOperands := numOperands + 1;
      }
      assert storage[..numOperands] == operands;
    }

    /** grow: a fresh buffer of capacity max(NextPowerOf2(capacity + 2),
        minSize) holding the same operands in the same order. */
    method Grow(minSize: nat)
      requires Valid()
      modifies this
      ensures Valid() && Operands() == old(Operands())
      ensures Capacity() == GrownCapacity(old(Capacity()), minSize)
      ensures numOperands == old(numOperands) && fresh(storage)
    {
      var current := storage;
      var n := numOperands;
      var capacity := GrownCapacity(current.Length, minSize);
      var newStorage := new Value[capacity];
      for i := 0 to n
        modifies newStorage
        invariant forall k :: 0 <= k < i ==> newStorage[k] == current[k]
      {
        newStorage[i] := current[i];
      }
      assert newStorage[..n] == current[..n];
      storage := newStorage;
    }

    /** eraseOperand, with the rotation running to the end of the old
        operands. */
    method EraseOperand(index: nat)
      requires Valid() && index < numOperands
      modifies this, storage
      ensures Valid() && storage == old(storage)
      ensures Operands() == Erased(old(Operands()), index)
    {
      numOperands := numOperands - 1;
      if index != numOperands {
        RotateLeft(storage, index, numOperands + 1);
      }
      assert Operands() == Erased(old(Operands()), index);
    }

    /** eraseOperand as written: the rotation ends at the new count. */
    method EraseOperandAsWritten(index: nat)
      requires Valid() && index < numOperands
      modifies this, storage
      ensures Valid() && storage == old(storage)
      ensures Operands() == ErasedAsWritten(old(Operands()), index)
    {
      ghost var ops := Operands();
      numOperands := numOperands - 1;
      if index != numOperands {
        RotateLeft(storage, index, numOperands);
        AsWrittenElementwise(ops, Operands(), index);
      } else {
        assert Operands() == ops[..index];
      }
    }
  }

  // ---------------------------------------------------------------------
  // OperationState

  /** A region, reduced to the blocks it holds. */
  datatype Region = Region(blocks: seq<int>)

  /** The ingredients of an operation under construction. */
  class OperationState {
    var name: string
    var operands: seq<Value>
    var types: seq<int>
    var attributes: seq<Attributes.NamedAttribute>
    var successors: seq<int>
    var regions: seq<Region>

    /** Copies every list it is given. */
    constructor (name: string, operands: seq<Value>, types: seq<int>,
                 attributes: seq<Attributes.NamedAttribute>, successors: seq<int>, regions: seq<Region>)
      ensures this.name == name && this.operands == operands && this.types == types
      ensures this.attributes == attributes && this.successors == successors && this.regions == regions
    {
      this.name := name;
      this.operands := operands;
      this.types := types;
      this.attributes := attributes;
      this.successors := successors;
      this.regions := regions;
    }

    /** addRegion(): appends one new empty region and returns its position. */
    method AddRegion() returns (r: nat)
      modifies this
      ensures regions == old(regions) + [Region([])] && r == |regions| - 1
      ensures name == old(name) && operands == old(operands) && types == old(types)
      ensures attributes == old(attributes) && successors == old(successors)
    {
      regions := regions + [Region([])];
      r := |regions| - 1;
    }

    /** addRegion(region): appends the given region. */
    method AddGivenRegion(region: Region)
      modifies this
      ensures regions == old(regions) + [region]
      ensures name == old(name) && operands == old(operands) && types == old(types)
      ensures attributes == old(attributes) && successors == old(successors)
    {
      regions := regions + [region];
    }
  }
}
