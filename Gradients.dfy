// The eager gradient registry (op name to gradient-function factory), the
// single-gradient shortcut of gradient aggregation, and the helpers that
// record a forward operation's name, inputs and attributes, including the
// validation of shape attributes. The operations themselves are abstract:
// the status each underlying call returns is a parameter.
module Gradients {
  import opened Common

  // ---------------------------------------------------------------------
  // The gradient registry
  // ---------------------------------------------------------------------

  /** A tensor handle, identified by its address. */
  type Handle = int

  /** A gradient-function factory, identified by the registration that
      supplied it. */
  type Factory = nat

  datatype TensorShapeProto = TensorShapeProto(unknownRank: bool, dims: seq<int>)

  datatype AttrValue =
    | AttrInt(i: int)
    | AttrBool(b: bool)
    | AttrString(s: string)
    | AttrType(t: int)
    | AttrIntList(ints: seq<int>)
    | AttrShape(shape: TensorShapeProto)
    | AttrShapeList(shapes: seq<TensorShapeProto>)

  /** The recorded form of a forward operation. */
  datatype ForwardOp = ForwardOp(opName: string, inputs: seq<Handle>, attrs: map<string, AttrValue>)

  /** What a factory builds for a forward operation. */
  datatype GradientFunction = GradientFunction(factory: Factory, op: ForwardOp)

  /** GradientRegistry::Register on the registry's map: a new name is added
      with its factory and Ok; a name already present is AlreadyExists and
      the map is unchanged. */
  function RegisterIn(registry: map<string, Factory>, opName: string, factory: Factory): (map<string, Factory>, Code)
  {
    if opName in registry then (registry, AlreadyExists) else (registry[opName := factory], Ok)
  }

  /** GradientRegistry::Lookup: NotFound for an unregistered name, otherwise
      the function the name's factory builds for the operation. */
  function LookupIn(registry: map<string, Factory>, op: ForwardOp): (r: Result<GradientFunction>)
    ensures r.Failure? <==> op.opName !in registry
    ensures r.Failure? ==> r.code == NotFound
  {
    if op.opName in registry then Success(GradientFunction(registry[op.opName], op)) else Failure(NotFound)
  }

  /** Registering a new name succeeds, and looking it up then builds the
      function from that factory; registering it again is AlreadyExists and
      keeps the first factory. */
  lemma RegisterThenLookup(registry: map<string, Factory>, opName: string, f: Factory, g: Factory, op: ForwardOp)
    requires opName !in registry && op.opName == opName
    ensures RegisterIn(registry, opName, f).1 == Ok
    ensures LookupIn(RegisterIn(registry, opName, f).0, op) == Success(GradientFunction(f, op))
    ensures var again := RegisterIn(RegisterIn(registry, opName, f).0, opName, g);
            again.1 == AlreadyExists && again.0 == RegisterIn(registry, opName, f).0
  {
  }

  /** Registering a name leaves the lookup of every other name as it was. */
  lemma RegisterKeepsOthers(registry: map<string, Factory>, opName: string, f: Factory, op: ForwardOp)
    requires op.opName != opName
    ensures LookupIn(RegisterIn(registry, opName, f).0, op) == LookupIn(registry, op)
  {
  }

  /** A sequence of registrations, in order. */
  function RegisterAll(registry: map<string, Factory>, regs: seq<(string, Factory)>): map<string, Factory>
    decreases |regs|
  {
    if regs == [] then registry
    else RegisterAll(RegisterIn(registry, regs[0].0, regs[0].1).0, regs[1..])
  }

  /** After a sequence of registrations, a name that was new ends up with
      the factory of its first registration. */
  lemma {:induction false} FirstRegistrationWins(registry: map<string, Factory>, regs: seq<(string, Factory)>, i: nat)
    requires i < |regs|
    requires regs[i].0 !in registry
    requires forall j :: 0 <= j < i ==> regs[j].0 != regs[i].0
    ensures regs[i].0 in RegisterAll(registry, regs) && RegisterAll(registry, regs)[regs[i].0] == regs[i].1
    decreases |regs|
  {
    var next := RegisterIn(registry, regs[0].0, regs[0].1).0;
    if i == 0 {
      KeptThrough(next, regs[1..], regs[0].0);
    } else {
      FirstRegistrationWins(next, regs[1..], i - 1);
    }
  }

  /** A registered name keeps its factory through later registrations. */
  lemma {:induction false} KeptThrough(registry: map<string, Factory>, regs: seq<(string, Factory)>, name: string)
    requires name in registry
    ensures name in RegisterAll(registry, regs) && RegisterAll(registry, regs)[name] == registry[name]
    decreases |regs|
  {
    if regs != [] {
      KeptThrough(RegisterIn(registry, regs[0].0, regs[0].1).0, regs[1..], name);
    }
  }

  class GradientRegistry {
    var registry: map<string, Factory>

    constructor ()
      ensures registry == map[]
    {
      registry := map[];
    }

    method Register(opName: string, factory: Factory) returns (status: Code)
      modifies this
      ensures (registry, status) == RegisterIn(old(registry), opName, factory)
    {
      if opName in registry {
        return AlreadyExists;
      }
      registry := registry[opName := factory];
      return Ok;
    }

    function Lookup(op: ForwardOp): Result<GradientFunction>
      reads this
    {
      LookupIn(registry, op)
    }
  }

  // ---------------------------------------------------------------------
  // Gradient aggregation
  // ---------------------------------------------------------------------

  /** TapeVSpace::AggregateGradients: a single gradient is returned as it
      is; any other number is summed by an AddN operation, whose result (or
      null, on failure) is `addN`. */
  function AggregateGradients(gradients: seq<Handle>, addN: Option<Handle>): (r: Option<Handle>)
    ensures |gradients| == 1 ==> r == Some(gradients[0])
    ensures |gradients| != 1 ==> r == addN
  {
    if |gradients| == 1 then Some(gradients[0]) else addN
  }

  // ---------------------------------------------------------------------
  // Recording a forward operation
  // ---------------------------------------------------------------------

  /** TensorShape::MaxDimensions. */
  const MaxDimensions: int := 254

  /** The shape proto of `numDims` dimensions: unknown rank when negative,
      otherwise the first `numDims` dimensions in order. */
  function ShapeProtoOf(dims: seq<int>, numDims: int): (p: TensorShapeProto)
    requires numDims <= |dims|
    ensures numDims < 0 ==> p.unknownRank && p.dims == []
    ensures numDims >= 0 ==> !p.unknownRank && p.dims == dims[..numDims]
  {
    if numDims < 0 then TensorShapeProto(true, []) else TensorShapeProto(false, dims[..numDims])
  }

  /** The rank a shape proto describes, -1 for unknown. */
  function ProtoRank(p: TensorShapeProto): int
  {
    if p.unknownRank then -1 else |p.dims|
  }

  /** A shape proto keeps the rank it was built from (all negative counts
      meaning unknown) and the dimensions. */
  lemma ShapeProtoKeepsShape(dims: seq<int>, numDims: int)
    requires numDims <= |dims|
    ensures ProtoRank(ShapeProtoOf(dims, numDims)) == (if numDims < 0 then -1 else numDims)
    ensures forall d :: 0 <= d < numDims ==> ShapeProtoOf(dims, numDims).dims[d] == dims[d]
  {
  }

  /** The loop that adds one dimension per entry. */
  method BuildShapeProto(dims: seq<int>, numDims: int) returns (p: TensorShapeProto)
    requires numDims <= |dims|
    ensures p == ShapeProtoOf(dims, numDims)
  {
    if numDims < 0 {
      return TensorShapeProto(true, []);
    }
    p := TensorShapeProto(false, []);
    var d := 0;
    while d < numDims
      invariant 0 <= d <= numDims
      invariant p == TensorShapeProto(false, dims[..d])
    {
      p := p.(dims := p.dims + [dims[d]]);
      assert dims[..d + 1] == dims[..d] + [dims[d]];
      d := d + 1;
    }
  }

  class ForwardOperation {
    var opName: string
    var inputs: seq<Handle>
    var attrs: map<string, AttrValue>

    constructor ()
      ensures opName == "" && inputs == [] && attrs == map[]
    {
      opName := "";
      inputs := [];
      attrs := map[];
    }

    function Recorded(): ForwardOp
      reads this
    {
      ForwardOp(opName, inputs, attrs)
    }

    /** internal::Reset: the name is recorded whatever the operation's own
        Reset returns. */
    method Reset(op: string, resetStatus: Code) returns (status: Code)
      modifies this
      ensures opName == op && inputs == old(inputs) && attrs == old(attrs)
      ensures status == resetStatus
    {
      opName := op;
      return resetStatus;
    }

    /** internal::AddInput: the input is recorded only when the operation
        accepted it. */
    method AddInput(input: Handle, addStatus: Code) returns (status: Code)
      modifies this
      ensures status == addStatus && opName == old(opName) && attrs == old(attrs)
      ensures inputs == if addStatus == Ok then old(inputs) + [input] else old(inputs)
    {
      if addStatus != Ok {
        return addStatus;
      }
      inputs := inputs + [input];
      return Ok;
    }

    /** internal::AddInputList: the whole list, in order, or nothing. */
    method AddInputList(list: seq<Handle>, addStatus: Code) returns (status: Code)
      modifies this
      ensures status == addStatus && opName == old(opName) && attrs == old(attrs)
      ensures inputs == if addStatus == Ok then old(inputs) + list else old(inputs)
    {
      if addStatus != Ok {
        return addStatus;
      }
      var recorded := inputs;
      var i := 0;
      while i < |list|
        invariant 0 <= i <= |list|
        invariant recorded == inputs + list[..i]
      {
        recorded := recorded + [list[i]];
        i := i + 1;
      }
      assert list[..i] == list;
      inputs := recorded;
      return Ok;
    }

    /** internal::SetAttrString, SetAttrInt, SetAttrBool, SetAttrType and
        the list setters: the attribute is recorded before, and whatever,
        the operation's own setter returns. */
    method SetAttr(name: string, value: AttrValue, setStatus: Code) returns (status: Code)
      modifies this
      ensures attrs == old(attrs)[name := value] && opName == old(opName) && inputs == old(inputs)
      ensures status == setStatus
    {
      attrs := attrs[name := value];
      return setStatus;
    }

    /** internal::SetAttrShape: more than MaxDimensions dimensions is
        InvalidArgument and records nothing; otherwise the shape proto is
        recorded and the operation's setter decides the status. */
    method SetAttrShape(name: string, dims: seq<int>, numDims: int, setStatus: Code) returns (status: Code)
      requires numDims <= |dims| || numDims > MaxDimensions
      modifies this
      ensures opName == old(opName) && inputs == old(inputs)
      ensures numDims > MaxDimensions ==> status == InvalidArgument && attrs == old(attrs)
      ensures numDims <= MaxDimensions ==>
                status == setStatus && attrs == old(attrs)[name := AttrShape(ShapeProtoOf(dims, numDims))]
    {
      if numDims > MaxDimensions {
        return InvalidArgument;
      }
      var proto := BuildShapeProto(dims, numDims);
      attrs := attrs[name := AttrShape(proto)];
      return setStatus;
    }

    /** internal::SetAttrShapeList: the SetAttrShape rule for every element;
        the first element over the limit is InvalidArgument and records
        nothing. */
    method SetAttrShapeList(name: string, dims: seq<seq<int>>, numDims: seq<int>, setStatus: Code)
      returns (status: Code)
      requires |dims| == |numDims|
      requires forall i :: 0 <= i < |numDims| ==> numDims[i] <= |dims[i]| || numDims[i] > MaxDimensions
      modifies this
      ensures opName == old(opName) && inputs == old(inputs)
      ensures (exists i :: 0 <= i < |numDims| && numDims[i] > MaxDimensions) ==>
                status == InvalidArgument && attrs == old(attrs)
      ensures (forall i :: 0 <= i < |numDims| ==> numDims[i] <= MaxDimensions) ==>
                status == setStatus &&
                attrs == old(attrs)[name := AttrShapeList(ShapeProtosOf(dims, numDims))]
    {
      var protos: seq<TensorShapeProto> := [];
      var i := 0;
      while i < |numDims|
        invariant 0 <= i <= |numDims|
        invariant forall k :: 0 <= k < i ==> numDims[k] <= MaxDimensions
        invariant protos == ShapeProtosOf(dims[..i], numDims[..i])
        invariant opName == old(opName) && inputs == old(inputs) && attrs == old(attrs)
      {
        if numDims[i] > MaxDimensions {
          return InvalidArgument;
        }
        var p := BuildShapeProto(dims[i], numDims[i]);
        ShapeProtosOfAppend(dims[..i], numDims[..i], dims[i], numDims[i]);
        assert dims[..i + 1] == dims[..i] + [dims[i]];
        assert numDims[..i + 1] == numDims[..i] + [numDims[i]];
        protos := protos + [p];
        i := i + 1;
      }
      assert dims[..i] == dims && numDims[..i] == numDims;
      attrs := attrs[name := AttrShapeList(protos)];
      return setStatus;
    }

    /** internal::SetAttrFunction, SetAttrFunctionName, SetAttrTensor and
        SetAttrFunctionList: Unimplemented, nothing recorded. */
    method SetAttrUnimplemented(name: string) returns (status: Code)
      ensures status == Unimplemented
    {
      return Unimplemented;
    }
  }

  /** One shape proto per element, in order. */
  function ShapeProtosOf(dims: seq<seq<int>>, numDims: seq<int>): (r: seq<TensorShapeProto>)
    requires |dims| == |numDims|
    requires forall i :: 0 <= i < |numDims| ==> numDims[i] <= |dims[i]|
    ensures |r| == |numDims|
    ensures forall i :: 0 <= i < |r| ==> r[i] == ShapeProtoOf(dims[i], numDims[i])
  {
    seq(|numDims|, i requires 0 <= i < |numDims| => ShapeProtoOf(dims[i], numDims[i]))
  }

  lemma ShapeProtosOfAppend(dims: seq<seq<int>>, numDims: seq<int>, d: seq<int>, n: int)
    requires |dims| == |numDims|
    requires forall i :: 0 <= i < |numDims| ==> numDims[i] <= |dims[i]|
    requires n <= |d|
    ensures ShapeProtosOf(dims + [d], numDims + [n]) == ShapeProtosOf(dims, numDims) + [ShapeProtoOf(d, n)]
  {
    var a, b := ShapeProtosOf(dims + [d], numDims + [n]), ShapeProtosOf(dims, numDims) + [ShapeProtoOf(d, n)];
    forall i | 0 <= i < |a|
      ensures a[i] == b[i]
    {
      if i < |dims| {
        assert (dims + [d])[i] == dims[i] && (numDims + [n])[i] == numDims[i];
      }
    }
  }
}
