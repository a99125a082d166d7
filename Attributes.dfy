// Attributes: remapping of function references inside attributes, element
// lookup in a dense elements attribute, and the named-attribute list of an
// operation with get, set and remove.
module Attributes {
  import opened Common
  import VectorToVector

  /** The attribute kinds that matter here; every other kind is OtherAttr. */
  datatype Attribute =
    | NullAttr
    | FunctionAttr(symbol: string)
    | ArrayAttr(elements: seq<Attribute>)
    | OtherAttr(id: int)

  predicate IsOrContainsFunction(a: Attribute)
  {
    match a
    case FunctionAttr(_) => true
    case ArrayAttr(elts) => exists i :: 0 <= i < |elts| && IsOrContainsFunction(elts[i])
    case _ => false
  }

  /** remapFunctionAttrs: function attributes found in the table are replaced
      by their mapping, inside arrays too; an attribute that does not change
      is returned as is. */
  function RemapFunctionAttrs(a: Attribute, table: map<string, string>): (r: Attribute)
    ensures !IsOrContainsFunction(a) ==> r == a
  {
    if !IsOrContainsFunction(a) then a
    else match a
      case FunctionAttr(f) => if f in table then FunctionAttr(table[f]) else a
      case ArrayAttr(elts) =>
        var remapped := seq(|elts|, i requires 0 <= i < |elts| => RemapFunctionAttrs(elts[i], table));
        var anyChange := exists i :: 0 <= i < |elts| && elts[i] != remapped[i];
        if !anyChange then a else ArrayAttr(remapped)
      case _ => a
  }

  /** The substitution itself, always rebuilding. */
  function Substituted(a: Attribute, table: map<string, string>): Attribute
  {
    match a
    case FunctionAttr(f) => if f in table then FunctionAttr(table[f]) else a
    case ArrayAttr(elts) =>
      ArrayAttr(seq(|elts|, i requires 0 <= i < |elts| => Substituted(elts[i], table)))
    case _ => a
  }

  lemma {:induction false} SubstitutedWithoutFunctions(a: Attribute, table: map<string, string>)
    requires !IsOrContainsFunction(a)
    ensures Substituted(a, table) == a
  {
    if a.ArrayAttr? {
      forall i | 0 <= i < |a.elements|
        ensures Substituted(a.elements[i], table) == a.elements[i]
      {
        SubstitutedWithoutFunctions(a.elements[i], table);
      }
      assert Substituted(a, table).elements == a.elements;
    }
  }

  /** The short cuts of remapFunctionAttrs do not change its result: it is
      the plain substitution. */
  lemma {:induction false} RemapIsSubstitution(a: Attribute, table: map<string, string>)
    ensures RemapFunctionAttrs(a, table) == Substituted(a, table)
  {
    if !IsOrContainsFunction(a) {
      SubstitutedWithoutFunctions(a, table);
    } else if a.ArrayAttr? {
      var elts := a.elements;
      forall i | 0 <= i < |elts|
        ensures RemapFunctionAttrs(elts[i], table) == Substituted(elts[i], table)
      {
        RemapIsSubstitution(elts[i], table);
      }
      assert Substituted(a, table).elements ==
        seq(|elts|, i requires 0 <= i < |elts| => RemapFunctionAttrs(elts[i], table));
    }
  }

  /** An empty remapping table changes nothing. */
  lemma {:induction false} RemapEmptyTable(a: Attribute)
    ensures RemapFunctionAttrs(a, map[]) == a
  {
    RemapIsSubstitution(a, map[]);
    SubstitutedEmptyTable(a);
  }

  lemma {:induction false} SubstitutedEmptyTable(a: Attribute)
    ensures Substituted(a, map[]) == a
  {
    if a.ArrayAttr? {
      forall i | 0 <= i < |a.elements|
        ensures Substituted(a.elements[i], map[]) == a.elements[i]
      {
        SubstitutedEmptyTable(a.elements[i]);
      }
      assert Substituted(a, map[]).elements == a.elements;
    }
  }

  // ---------------------------------------------------------------------
  // DenseElementsAttr::getValue

  /** A dense elements attribute: a static shape and its elements in
      row-major order (the raw bits of each element, abstractly). A static
      dimension may be 0, and then there are no elements. */
  datatype DenseElements = DenseElements(shape: seq<int>, elements: seq<int>)
  {
    ghost predicate Valid()
    {
      (forall i :: 0 <= i < |shape| ==> shape[i] >= 0) && |elements| == Product(shape)
    }
  }

  /** A shape with a zero dimension holds no element and admits no index. */
  lemma {:induction false} ZeroExtentIsEmpty(shape: seq<int>, k: nat, index: seq<int>)
    requires k < |shape| && shape[k] == 0
    ensures Product(shape) == 0
    ensures !VectorToVector.InBounds(index, shape)
  {
    if k > 0 {
      ZeroExtentIsEmpty(shape[1..], k - 1, index);
    }
  }

  const Int64Limit: int := 0x8000_0000_0000_0000
  const U64: int := 0x1_0000_0000_0000_0000

  /** static_cast<int64_t> of a uint64_t. */
  function AsSigned(u: nat): int
    requires u < U64
  {
    if u < Int64Limit then u else u - U64
  }

  /** An index accepted by the checks of getValue as written: the rank
      matches and, comparing each index converted to signed, no dimension
      size is at most its index. */
  predicate AcceptedAsWritten(shape: seq<int>, index: seq<nat>)
    requires forall i :: 0 <= i < |index| ==> index[i] < U64
  {
    |index| == |shape| && forall i :: 0 <= i < |shape| ==> !(shape[i] <= AsSigned(index[i]))
  }

  /** A uint64 index of 2^63 passes the bounds check of a one-dimensional
      attribute of four elements, because it turns negative when cast. */
  lemma HugeIndexPassesCheck()
    ensures AcceptedAsWritten([4], [Int64Limit])
    ensures !VectorToVector.InBounds([Int64Limit], [4])
  {
    assert !(0 <= [Int64Limit][0] < [4][0]);
  }

  /** getValue: null for an index of the wrong rank or out of bounds (indices
      compared as unsigned values), otherwise the element at the row-major
      linear index. */
  method GetValue(attr: DenseElements, index: seq<nat>) returns (r: Option<int>)
    requires attr.Valid()
    requires forall i :: 0 <= i < |index| ==> index[i] < U64
    ensures r.None? <==> !VectorToVector.InBounds(index, attr.shape)
    ensures (exists k :: 0 <= k < |attr.shape| && attr.shape[k] == 0) ==> r.None?
    ensures r.Some? ==>
      var linear := VectorToVector.Dot(index, VectorToVector.Strides(attr.shape));
      0 <= linear < |attr.elements| && r.value == attr.elements[linear]
  {
    var shape := attr.shape;
    var rank := |shape|;
    if rank != |index| {
      return None;
    }
    for i := 0 to rank
      invariant forall j :: 0 <= j < i ==> index[j] < shape[j]
    {
      if shape[i] <= index[i] {
        return None;
      }
    }
    assert VectorToVector.AllPositive(shape);
    var valueIndex := LinearIndex(shape, index);
    VectorToVector.DotBounds(index, shape);
    return Some(attr.elements[valueIndex]);
  }

  /** The row-major reduction of a multidimensional index, innermost
      dimension first. */
  method LinearIndex(shape: seq<int>, index: seq<nat>) returns (valueIndex: int)
    requires |index| == |shape|
    ensures valueIndex == VectorToVector.Dot(index, VectorToVector.Strides(shape))
  {
    valueIndex := 0;
    var dimMultiplier := 1;
    var i := |shape|;
    while i > 0
      invariant 0 <= i <= |shape|
      invariant dimMultiplier == Product(shape[i..])
      invariant valueIndex == VectorToVector.Dot(index[i..], VectorToVector.Strides(shape)[i..])
    {
      i := i - 1;
      LinearIndexStep(shape, index, i);
      valueIndex := valueIndex + index[i] * dimMultiplier;
      dimMultiplier := dimMultiplier * shape[i];
    }
  }

  lemma LinearIndexStep(shape: seq<int>, index: seq<nat>, i: nat)
    requires |index| == |shape| && i < |shape|
    ensures Product(shape[i..]) == shape[i] * Product(shape[i + 1..])
    ensures VectorToVector.Dot(index[i..], VectorToVector.Strides(shape)[i..]) ==
      index[i] * Product(shape[i + 1..]) + VectorToVector.Dot(index[i + 1..], VectorToVector.Strides(shape)[i + 1..])
  {
    assert shape[i..] == [shape[i]] + shape[i + 1..];
    assert index[i..][1..] == index[i + 1..];
    assert VectorToVector.Strides(shape)[i..][1..] == VectorToVector.Strides(shape)[i + 1..];
  }

  // ---------------------------------------------------------------------
  // NamedAttributeList

  type NamedAttribute = (string, Attribute)

  datatype RemoveResult = Removed | NotFound

  /** Position of the first entry with the given name, or -1. */
  function FirstIndex(attrs: seq<NamedAttribute>, name: string): (i: int)
    ensures -1 <= i < |attrs|
    ensures i >= 0 ==> attrs[i].0 == name && forall j :: 0 <= j < i ==> attrs[j].0 != name
    ensures i == -1 ==> forall j :: 0 <= j < |attrs| ==> attrs[j].0 != name
  {
    if attrs == [] then -1
    else if attrs[0].0 == name then 0
    else
      var rest := FirstIndex(attrs[1..], name);
      if rest == -1 then -1 else rest + 1
  }

  /** FirstIndex is determined by its description. */
  lemma FirstIndexIs(attrs: seq<NamedAttribute>, name: string, i: int)
    requires -1 <= i < |attrs|
    requires i >= 0 ==> attrs[i].0 == name && forall j :: 0 <= j < i ==> attrs[j].0 != name
    requires i == -1 ==> forall j :: 0 <= j < |attrs| ==> attrs[j].0 != name
    ensures FirstIndex(attrs, name) == i
  {
    var r := FirstIndex(attrs, name);
    if i >= 0 {
      assert attrs[i].0 == name;
    }
    if r >= 0 {
      assert attrs[r].0 == name;
    }
  }

  /** The value of the first entry with the given name, or the null
      attribute. */
  function Lookup(attrs: seq<NamedAttribute>, name: string): Attribute
  {
    var i := FirstIndex(attrs, name);
    if i >= 0 then attrs[i].1 else NullAttr
  }

  /** The list after set(name, value). */
  function AfterSet(attrs: seq<NamedAttribute>, name: string, value: Attribute): seq<NamedAttribute>
  {
    var i := FirstIndex(attrs, name);
    if i >= 0 then attrs[i := (name, value)] else attrs + [(name, value)]
  }

  /** The list after remove(name) and its result. */
  function AfterRemove(attrs: seq<NamedAttribute>, name: string): (seq<NamedAttribute>, RemoveResult)
  {
    var i := FirstIndex(attrs, name);
    if i >= 0 then (attrs[..i] + attrs[i + 1..], Removed) else (attrs, RemoveResult.NotFound)
  }

  predicate NoNullEntries(attrs: seq<NamedAttribute>)
  {
    forall i :: 0 <= i < |attrs| ==> attrs[i].1 != NullAttr
  }

  /** With no null entries, lookup is null exactly when the name is absent. */
  lemma LookupNullIffAbsent(attrs: seq<NamedAttribute>, name: string)
    requires NoNullEntries(attrs)
    ensures Lookup(attrs, name) == NullAttr <==> forall j :: 0 <= j < |attrs| ==> attrs[j].0 != name
  {
  }

  /** set adds at most one entry, makes the name look up to the new value,
      and leaves every other name's lookup alone. */
  lemma SetProperties(attrs: seq<NamedAttribute>, name: string, value: Attribute, other: string)
    requires other != name
    ensures |attrs| <= |AfterSet(attrs, name, value)| <= |attrs| + 1
    ensures Lookup(AfterSet(attrs, name, value), name) == value
    ensures Lookup(AfterSet(attrs, name, value), other) == Lookup(attrs, other)
  {
    var i := FirstIndex(attrs, name);
    if i >= 0 {
      SetReplacing(attrs, name, value, other, i);
    } else {
      SetAppending(attrs, name, value, other);
    }
  }

  lemma SetReplacing(attrs: seq<NamedAttribute>, name: string, value: Attribute, other: string, i: int)
    requires other != name && i == FirstIndex(attrs, name) && i >= 0
    ensures AfterSet(attrs, name, value) == attrs[i := (name, value)]
    ensures Lookup(attrs[i := (name, value)], name) == value
    ensures Lookup(attrs[i := (name, value)], other) == Lookup(attrs, other)
  {
    var s := attrs[i := (name, value)];
    FirstIndexIs(s, name, i);
    FirstIndexIs(s, other, FirstIndex(attrs, other));
  }

  lemma SetAppending(attrs: seq<NamedAttribute>, name: string, value: Attribute, other: string)
    requires other != name && FirstIndex(attrs, name) == -1
    ensures AfterSet(attrs, name, value) == attrs + [(name, value)]
    ensures Lookup(attrs + [(name, value)], name) == value
    ensures Lookup(attrs + [(name, value)], other) == Lookup(attrs, other)
  {
    var s := attrs + [(name, value)];
    FirstIndexIs(s, name, |attrs|);
    var k := FirstIndex(attrs, other);
    if k >= 0 {
      FirstIndexIs(s, other, k);
    } else {
      FirstIndexIs(s, other, -1);
    }
  }

  /** remove deletes exactly the first matching entry, keeping the order of
      the others; with unique names the name then looks up to null and the
      other names are unaffected. */
  lemma RemoveProperties(attrs: seq<NamedAttribute>, name: string, other: string)
    requires other != name
    ensures var (after, res) := AfterRemove(attrs, name);
      && (res == Removed <==> exists j :: 0 <= j < |attrs| && attrs[j].0 == name)
      && (res == Removed ==> |after| == |attrs| - 1)
      && (res == RemoveResult.NotFound ==> after == attrs)
      && Lookup(after, other) == Lookup(attrs, other)
    ensures (forall j, k :: 0 <= j < k < |attrs| ==> attrs[j].0 != attrs[k].0) ==>
      Lookup(AfterRemove(attrs, name).0, name) == NullAttr
  {
    var i := FirstIndex(attrs, name);
    if i >= 0 {
      RemoveKeepsOther(attrs, i, other);
      RemoveUnique(attrs, i, name);
    }
  }

  /** Dropping the first entry of one name leaves another name's lookup. */
  lemma RemoveKeepsOther(attrs: seq<NamedAttribute>, i: int, other: string)
    requires 0 <= i < |attrs| && attrs[i].0 != other
    ensures Lookup(attrs[..i] + attrs[i + 1..], other) == Lookup(attrs, other)
  {
    var after := attrs[..i] + attrs[i + 1..];
    var k := FirstIndex(attrs, other);
    if k == -1 {
      FirstIndexIs(after, other, -1);
    } else if k < i {
      FirstIndexIs(after, other, k);
    } else {
      assert after[k - 1] == attrs[k];
      FirstIndexIs(after, other, k - 1);
    }
  }

  /** With names listed once, dropping a name's entry leaves none. */
  lemma RemoveUnique(attrs: seq<NamedAttribute>, i: int, name: string)
    requires 0 <= i < |attrs| && attrs[i].0 == name
    ensures (forall j, k :: 0 <= j < k < |attrs| ==> attrs[j].0 != attrs[k].0) ==>
      Lookup(attrs[..i] + attrs[i + 1..], name) == NullAttr
  {
    var after := attrs[..i] + attrs[i + 1..];
    if forall j, k :: 0 <= j < k < |attrs| ==> attrs[j].0 != attrs[k].0 {
      forall j | 0 <= j < |after| ensures after[j].0 != name {
        if j >= i {
          assert after[j] == attrs[j + 1];
        } else {
          assert after[j] == attrs[j];
        }
      }
      FirstIndexIs(after, name, -1);
    }
  }

  /** Setting a new name and removing it again restores the list. */
  lemma SetThenRemove(attrs: seq<NamedAttribute>, name: string, value: Attribute)
    requires forall j :: 0 <= j < |attrs| ==> attrs[j].0 != name
    ensures AfterRemove(AfterSet(attrs, name, value), name) == (attrs, Removed)
  {
    FirstIndexIs(attrs, name, -1);
    var s := AfterSet(attrs, name, value);
    FirstIndexIs(s, name, |attrs|);
    assert s == attrs + [(name, value)];
    assert s[..|attrs|] + s[|attrs| + 1..] == attrs;
  }

  /** The attribute list of an operation; no storage stands for the empty
      list. */
  class NamedAttributeList {
    var storage: Option<seq<NamedAttribute>>

    ghost predicate Valid()
      reads this
    {
      storage.Some? ==> |storage.value| > 0
    }

    /** getAttrs */
    function Attrs(): seq<NamedAttribute>
      reads this
    {
      if storage.Some? then storage.value else []
    }

    constructor (attributes: seq<NamedAttribute>)
      requires NoNullEntries(attributes)
      ensures Valid() && Attrs() == attributes
      ensures storage.None? <==> attributes == []
    {
      if attributes == [] {
        storage := None;
      } else {
        storage := Some(attributes);
      }
    }

    /** setAttrs: an empty list leaves no storage. */
    method SetAttrs(attributes: seq<NamedAttribute>)
      requires NoNullEntries(attributes)
      modifies this
      ensures Valid() && Attrs() == attributes
      ensures storage.None? <==> attributes == []
    {
      if attributes == [] {
        storage := None;
        return;
      }
      storage := Some(attributes);
    }

    /** get: the first attribute with the name, or null. */
    method Get(name: string) returns (a: Attribute)
      ensures a == Lookup(Attrs(), name)
    {
      var attrs := Attrs();
      for i := 0 to |attrs|
        invariant forall j :: 0 <= j < i ==> attrs[j].0 != name
      {
        if attrs[i].0 == name {
          return attrs[i].1;
        }
      }
      return NullAttr;
    }

    /** set: replaces the value of the first entry with the name, or
        appends a new entry. */
    method Set(name: string, value: Attribute)
      requires value != NullAttr
      requires Valid()
      modifies this
      ensures Valid() && Attrs() == AfterSet(old(Attrs()), name, value)
    {
      var newAttrs := Attrs();
      for i := 0 to |newAttrs|
        invariant newAttrs == Attrs()
        invariant forall j :: 0 <= j < i ==> newAttrs[j].0 != name
      {
        if newAttrs[i].0 == name {
          newAttrs := newAttrs[i := (name, value)];
          storage := Some(newAttrs);
          return;
        }
      }
      newAttrs := newAttrs + [(name, value)];
      storage := Some(newAttrs);
    }

    /** remove: deletes the first entry with the name; removing the only
        entry leaves no storage. */
    method Remove(name: string) returns (res: RemoveResult)
      requires Valid()
      modifies this
      ensures Valid()
      ensures (Attrs(), res) == AfterRemove(old(Attrs()), name)
      ensures res == Removed && |old(Attrs())| == 1 ==> storage.None?
    {
      var origAttrs := Attrs();
      var e := |origAttrs|;
      for i := 0 to e
        invariant origAttrs == Attrs()
        invariant forall j :: 0 <= j < i ==> origAttrs[j].0 != name
      {
        if origAttrs[i].0 == name {
          if e == 1 {
            assert origAttrs[..i] + origAttrs[i + 1..] == [];
            storage := None;
            return Removed;
          }
          var newAttrs := origAttrs[..i] + origAttrs[i + 1..];
          storage := Some(newAttrs);
          return Removed;
        }
      }
      return RemoveResult.NotFound;
    }
  }
}
