// Pytree: flattening nested Python containers into a post-order node
// traversal plus a list of leaves, and rebuilding them from it.
module Pytree {
  import opened Common

  /** Dictionary keys, ordered by `<` as list.sort() orders them. */
  type Key = int
  /** Python types, identified by number. */
  type TypeId = int

  /** The Python objects a tree is made of. A CustomObj is an instance of a
      class; it is a node when its class is registered and a leaf
      otherwise. Its registered callbacks split it into its children and an
      auxiliary datum and rebuild it from them. */
  datatype PyObj =
    | Atom(id: int)
    | NoneObj
    | TupleObj(items: seq<PyObj>)
    | ListObj(items: seq<PyObj>)
    | DictObj(entries: map<Key, PyObj>)
    | NamedTupleObj(typ: TypeId, items: seq<PyObj>)
    | CustomObj(typ: TypeId, aux: int, items: seq<PyObj>)

  datatype Kind = KLeaf | KNone | KTuple | KNamedTuple | KList | KDict | KCustom

  /** node_data: nothing, the sorted keys of a dict, the class of a
      namedtuple or the auxiliary datum of a custom node. */
  datatype NodeData = NoData | Keys(keys: seq<Key>) | TypeData(typ: TypeId) | Aux(aux: int)

  datatype Node = Node(kind: Kind, arity: nat, data: NodeData, custom: Option<TypeId>,
                       numLeaves: int, numNodes: int)

  /** The exceptions the module raises. */
  datatype PyError =
    | DuplicateRegistration | TooFewElements | TooFewLeaves | TooManyLeaves | NotSingleton
    | ArityMismatch | LeafNotImplemented | BadNodeData
    | ChildOutOfRange | WalkedOffStart | PosNotZero

  datatype Outcome<T> = Done(value: T) | Raise(error: PyError)

  // ---------------------------------------------------------------------
  // Registry of custom node types

  class CustomNodeRegistry {
    var registrations: set<TypeId>

    constructor ()
      ensures registrations == {}
    {
      registrations := {};
    }

    /** Register: a second registration of the same type is rejected and
        leaves the registry unchanged. */
    method Register(typ: TypeId) returns (error: Option<PyError>)
      modifies this
      ensures typ in old(registrations) ==> error == Some(DuplicateRegistration) && registrations == old(registrations)
      ensures typ !in old(registrations) ==> error == None && registrations == old(registrations) + {typ}
    {
      if typ in registrations {
        return Some(DuplicateRegistration);
      }
      registrations := registrations + {typ};
      return None;
    }
  }

  // ---------------------------------------------------------------------
  // Sorted dictionary keys

  predicate IsMin(m: Key, s: set<Key>)
  {
    m in s && forall y :: y in s ==> m <= y
  }

  lemma MinExists(s: set<Key>)
    requires s != {}
    ensures exists m :: IsMin(m, s)
  {
    var x := ElementOf(s);
    if s == {x} {
      assert IsMin(x, s);
    } else {
      MinExists(s - {x});
      var r :| IsMin(r, s - {x});
      var m := if x < r then x else r;
      forall y | y in s ensures m <= y {
        if y != x { assert y in s - {x}; }
      }
      assert IsMin(m, s);
    }
  }

  /** PyDict_Keys followed by PyList_Sort: every key once, ascending. */
  function SortedKeys(s: set<Key>): (r: seq<Key>)
    ensures |r| == |s|
    ensures forall i :: 0 <= i < |r| ==> r[i] in s
    ensures forall k :: k in s ==> k in r
    ensures forall i, j :: 0 <= i < j < |r| ==> r[i] < r[j]
    decreases |s|
  {
    if s == {} then []
    else
      MinExists(s);
      var m :| IsMin(m, s);
      var rest := SortedKeys(s - {m});
      SortedCons(m, s, rest);
      [m] + rest
  }

  /** The smallest key before the sorted others is sorted. */
  lemma SortedCons(m: Key, s: set<Key>, rest: seq<Key>)
    requires IsMin(m, s)
    requires |rest| == |s - {m}|
    requires forall i :: 0 <= i < |rest| ==> rest[i] in s - {m}
    requires forall k :: k in s - {m} ==> k in rest
    requires forall i, j :: 0 <= i < j < |rest| ==> rest[i] < rest[j]
    ensures var r := [m] + rest;
      && |r| == |s|
      && (forall i :: 0 <= i < |r| ==> r[i] in s)
      && (forall k :: k in s ==> k in r)
      && (forall i, j :: 0 <= i < j < |r| ==> r[i] < r[j])
  {
    assert |s - {m}| == |s| - 1;
    ConsMembers(m, s - {m}, rest);
    ConsOrdered(m, s - {m}, rest);
  }

  lemma ConsMembers(m: Key, t: set<Key>, rest: seq<Key>)
    requires forall i :: 0 <= i < |rest| ==> rest[i] in t
    requires forall k :: k in t ==> k in rest
    ensures forall i :: 0 <= i < |[m] + rest| ==> ([m] + rest)[i] in t + {m}
    ensures forall k :: k in t + {m} ==> k in [m] + rest
  {
    var r := [m] + rest;
    forall i | 0 <= i < |r| ensures r[i] in t + {m} {
      if i > 0 { assert r[i] == rest[i - 1]; }
    }
  }

  lemma ConsOrdered(m: Key, t: set<Key>, rest: seq<Key>)
    requires forall i :: 0 <= i < |rest| ==> rest[i] in t
    requires forall k :: k in t ==> m < k
    requires forall i, j :: 0 <= i < j < |rest| ==> rest[i] < rest[j]
    ensures forall i, j :: 0 <= i < j < |[m] + rest| ==> ([m] + rest)[i] < ([m] + rest)[j]
  {
    var r := [m] + rest;
    forall i, j | 0 <= i < j < |r| ensures r[i] < r[j] {
      assert r[j] == rest[j - 1];
      if i > 0 {
        assert r[i] == rest[i - 1];
      }
    }
  }

  // ---------------------------------------------------------------------
  // Classifying an object

  /** GetKind: exact tuples, lists and dicts first, then instances of
      registered classes, then None and namedtuples; anything else is a
      leaf. */
  function GetKind(reg: set<TypeId>, x: PyObj): (k: Kind)
    ensures k == KCustom <==> x.CustomObj? && x.typ in reg
    ensures k == KLeaf <==> x.Atom? || (x.CustomObj? && x.typ !in reg)
  {
    match x
    case TupleObj(_) => KTuple
    case ListObj(_) => KList
    case DictObj(_) => KDict
    case CustomObj(typ, _, _) => if typ in reg then KCustom else KLeaf
    case NoneObj => KNone
    case NamedTupleObj(_, _) => KNamedTuple
    case Atom(_) => KLeaf
  }

  /** The number of children flattening visits. */
  function Arity(reg: set<TypeId>, x: PyObj): nat
  {
    match x
    case TupleObj(items) => |items|
    case ListObj(items) => |items|
    case DictObj(m) => |m|
    case NamedTupleObj(_, items) => |items|
    case CustomObj(typ, _, items) => if typ in reg then |items| else 0
    case _ => 0
  }

  /** The i-th child flattening visits: dict values in sorted key order. */
  function ChildAt(reg: set<TypeId>, x: PyObj, i: nat): (r: PyObj)
    requires i < Arity(reg, x)
    ensures r < x
  {
    match x
    case TupleObj(items) => items[i]
    case ListObj(items) => items[i]
    case NamedTupleObj(_, items) => items[i]
    case CustomObj(_, _, items) => items[i]
    case DictObj(m) => m[SortedKeys(m.Keys)[i]]
  }

  function DataOf(reg: set<TypeId>, x: PyObj): NodeData
  {
    match x
    case DictObj(m) => Keys(SortedKeys(m.Keys))
    case NamedTupleObj(typ, _) => TypeData(typ)
    case CustomObj(typ, aux, _) => if typ in reg then Aux(aux) else NoData
    case _ => NoData
  }

  function CustomOf(reg: set<TypeId>, x: PyObj): Option<TypeId>
  {
    if x.CustomObj? && x.typ in reg then Some(x.typ) else None
  }

  // ---------------------------------------------------------------------
  // Flattening

  /** FlattenInto: the children's nodes, then this object's node, are
      appended to the traversal; leaves are appended to the leaf list. The
      node's counts are measured from the growth of both lists. */
  function FlattenInto(reg: set<TypeId>, x: PyObj, traversal: seq<Node>, leaves: seq<PyObj>)
    : (r: (seq<Node>, seq<PyObj>))
    decreases x, 1
  {
    var c :=
      if GetKind(reg, x) == KLeaf then (traversal, leaves + [x])
      else FlattenChildren(reg, x, 0, traversal, leaves);
    Closed(reg, x, c, traversal, leaves)
  }

  /** The lists once x's node closes them: the node counts what was added
      since x was entered. */
  function Closed(reg: set<TypeId>, x: PyObj, c: (seq<Node>, seq<PyObj>), traversal: seq<Node>, leaves: seq<PyObj>)
    : (r: (seq<Node>, seq<PyObj>))
  {
    (c.0 + [RootOf(reg, x, |c.1| - |leaves|, |c.0| - |traversal| + 1)], c.1)
  }

  /** The node flattening records for x, with the counts it measures. */
  function RootOf(reg: set<TypeId>, x: PyObj, numLeaves: int, numNodes: int): Node
  {
    Node(GetKind(reg, x), Arity(reg, x), DataOf(reg, x), CustomOf(reg, x), numLeaves, numNodes)
  }


  /** The children of x from the i-th on, flattened in order. */
  function FlattenChildren(reg: set<TypeId>, x: PyObj, i: nat, traversal: seq<Node>, leaves: seq<PyObj>)
    : (r: (seq<Node>, seq<PyObj>))
    requires i <= Arity(reg, x)
    decreases x, 0, Arity(reg, x) - i
  {
    if i == Arity(reg, x) then (traversal, leaves)
    else
      var child := match x
        case TupleObj(items) => items[i]
        case ListObj(items) => items[i]
        case NamedTupleObj(_, items) => items[i]
        case CustomObj(_, _, items) => items[i]
        case DictObj(m) => m[SortedKeys(m.Keys)[i]];
      var first := FlattenInto(reg, child, traversal, leaves);
      var r := FlattenChildren(reg, x, i + 1, first.0, first.1);
      r
  }

  /** Flatten: the leaves of x and its tree definition. */
  function Flatten(reg: set<TypeId>, x: PyObj): (r: (seq<Node>, seq<PyObj>))
  {
    FlattenInto(reg, x, [], [])
  }

  function Nodes(reg: set<TypeId>, x: PyObj): seq<Node>
  {
    Flatten(reg, x).0
  }

  function LeavesOf(reg: set<TypeId>, x: PyObj): seq<PyObj>
  {
    Flatten(reg, x).1
  }

  /** What flattening appends does not depend on what is already there. */
  lemma {:induction false} FlattenIntoAppends(reg: set<TypeId>, x: PyObj, t: seq<Node>, l: seq<PyObj>)
    ensures FlattenInto(reg, x, t, l) == (t + Nodes(reg, x), l + LeavesOf(reg, x))
    decreases x, 1
  {
    if GetKind(reg, x) != KLeaf {
      FlattenChildrenAppends(reg, x, 0, t, l);
      InnerAppends(reg, x, t, l);
    } else {
      LeafAppends(reg, x, t, l);
    }
  }

  /** An inner node's flattening appends once its children's does. */
  lemma {:induction false} InnerAppends(reg: set<TypeId>, x: PyObj, t: seq<Node>, l: seq<PyObj>)
    requires GetKind(reg, x) != KLeaf
    requires var c := FlattenChildren(reg, x, 0, [], []);
             FlattenChildren(reg, x, 0, t, l) == (t + c.0, l + c.1)
    ensures FlattenInto(reg, x, t, l) == (t + Nodes(reg, x), l + LeavesOf(reg, x))
  {
    var c := FlattenChildren(reg, x, 0, [], []);
    var node := RootOf(reg, x, |c.1|, |c.0| + 1);
    assert Flatten(reg, x) == Closed(reg, x, c, [], []);
    assert FlattenInto(reg, x, t, l) == Closed(reg, x, (t + c.0, l + c.1), t, l);
    assert Closed(reg, x, (t + c.0, l + c.1), t, l) == ((t + c.0) + [node], l + c.1);
    AppendAssoc(t, c.0, [node]);
  }

  lemma {:induction false} LeafAppends(reg: set<TypeId>, x: PyObj, t: seq<Node>, l: seq<PyObj>)
    requires GetKind(reg, x) == KLeaf
    ensures FlattenInto(reg, x, t, l) == (t + Nodes(reg, x), l + LeavesOf(reg, x))
  {
    var node := Node(KLeaf, Arity(reg, x), DataOf(reg, x), CustomOf(reg, x), 1, 1);
    assert [] + [x] == [x] && [] + [node] == [node];
    assert FlattenInto(reg, x, [], []) == ([] + [node], [] + [x]);
    assert Flatten(reg, x) == ([node], [x]);
    assert FlattenInto(reg, x, t, l) == (t + [node], l + [x]);
  }

  /** One step of the children loop. */
  lemma FlattenChildrenStep(reg: set<TypeId>, x: PyObj, i: nat, t: seq<Node>, l: seq<PyObj>)
    requires i < Arity(reg, x)
    ensures var first := FlattenInto(reg, ChildAt(reg, x, i), t, l);
            FlattenChildren(reg, x, i, t, l) == FlattenChildren(reg, x, i + 1, first.0, first.1)
  {
  }

  lemma {:induction false} FlattenChildrenAppends(reg: set<TypeId>, x: PyObj, i: nat, t: seq<Node>, l: seq<PyObj>)
    requires i <= Arity(reg, x)
    ensures var c := FlattenChildren(reg, x, i, [], []);
            FlattenChildren(reg, x, i, t, l) == (t + c.0, l + c.1)
    decreases x, 0, Arity(reg, x) - i
  {
    if i < Arity(reg, x) {
      var child := ChildAt(reg, x, i);
      var f := Flatten(reg, child);
      FlattenIntoAppends(reg, child, t, l);
      FlattenChildrenStep(reg, x, i, t, l);
      assert FlattenChildren(reg, x, i, t, l) == FlattenChildren(reg, x, i + 1, t + f.0, l + f.1);
      FlattenChildrenStep(reg, x, i, [], []);
      assert FlattenInto(reg, child, [], []) == f;
      assert FlattenChildren(reg, x, i, [], []) == FlattenChildren(reg, x, i + 1, f.0, f.1);
      var rest := FlattenChildren(reg, x, i + 1, [], []);
      FlattenChildrenAppends(reg, x, i + 1, t + f.0, l + f.1);
      FlattenChildrenAppends(reg, x, i + 1, f.0, f.1);
      AppendAssoc(t, f.0, rest.0);
      AppendAssoc(l, f.1, rest.1);
    } else {
      assert t + [] == t && l + [] == l;
    }
  }

  // ---------------------------------------------------------------------
  // The shape of a flattened tree

  /** The concatenation of a list of sequences. */
  function Concat<T>(parts: seq<seq<T>>): seq<T>
  {
    if parts == [] then [] else parts[0] + Concat(parts[1..])
  }

  lemma {:induction false} ConcatSnoc<T>(parts: seq<seq<T>>, p: seq<T>)
    ensures Concat(parts + [p]) == Concat(parts) + p
  {
    if parts == [] {
      assert [] + [p] == [p];
      assert Concat([p]) == p + Concat([p][1..]);
      assert [p][1..] == [];
    } else {
      assert (parts + [p])[1..] == parts[1..] + [p];
      ConcatSnoc(parts[1..], p);
    }
  }

  /** The children of x in the order flattening visits them. */
  function ChildObjects(reg: set<TypeId>, x: PyObj): (cs: seq<PyObj>)
    ensures |cs| == Arity(reg, x)
  {
    seq(Arity(reg, x), i requires 0 <= i < Arity(reg, x) => ChildAt(reg, x, i))
  }

  /** The traversals of the children of x. */
  function ChildDefs(reg: set<TypeId>, x: PyObj): (ds: seq<seq<Node>>)
    ensures |ds| == Arity(reg, x)
  {
    seq(Arity(reg, x), i requires 0 <= i < Arity(reg, x) => Nodes(reg, ChildAt(reg, x, i)))
  }

  /** The leaves of the children of x. */
  function ChildLeaves(reg: set<TypeId>, x: PyObj): (ls: seq<seq<PyObj>>)
    ensures |ls| == Arity(reg, x)
  {
    seq(Arity(reg, x), i requires 0 <= i < Arity(reg, x) => LeavesOf(reg, ChildAt(reg, x, i)))
  }

  lemma {:induction false} FlattenChildrenConcat(reg: set<TypeId>, x: PyObj, i: nat)
    requires i <= Arity(reg, x)
    ensures FlattenChildren(reg, x, i, [], []) == (Concat(ChildDefs(reg, x)[i..]), Concat(ChildLeaves(reg, x)[i..]))
    decreases Arity(reg, x) - i
  {
    if i < Arity(reg, x) {
      var child := ChildAt(reg, x, i);
      FlattenChildrenStep(reg, x, i, [], []);
      FlattenChildrenAppends(reg, x, i + 1, Nodes(reg, child), LeavesOf(reg, child));
      FlattenChildrenConcat(reg, x, i + 1);
      assert ChildDefs(reg, x)[i..][1..] == ChildDefs(reg, x)[i + 1..];
      assert ChildLeaves(reg, x)[i..][1..] == ChildLeaves(reg, x)[i + 1..];
    }
  }

  /** Flattening is a post-order traversal: the children's traversals in
      order, then the node itself, whose counts are the number of leaves and
      of nodes of its subtree; the leaves are those of the children in
      order, or the object itself when it is a leaf. */
  lemma FlattenPostOrder(reg: set<TypeId>, x: PyObj)
    ensures var t := Nodes(reg, x);
            t == Concat(ChildDefs(reg, x)) + [RootOf(reg, x, |LeavesOf(reg, x)|, |t|)]
    ensures LeavesOf(reg, x) == if GetKind(reg, x) == KLeaf then [x] else Concat(ChildLeaves(reg, x))
  {
    assert ChildDefs(reg, x)[0..] == ChildDefs(reg, x);
    assert ChildLeaves(reg, x)[0..] == ChildLeaves(reg, x);
    if GetKind(reg, x) == KLeaf {
      assert ChildDefs(reg, x) == [];
      assert [] + [x] == [x];
      var node := RootOf(reg, x, 1, 1);
      assert [] + [node] == [node];
    } else {
      FlattenChildrenConcat(reg, x, 0);
    }
  }

  /** The number of leaf nodes in a traversal. */
  function LeafCount(t: seq<Node>): nat
  {
    if t == [] then 0 else LeafCount(t[..|t| - 1]) + (if t[|t| - 1].kind == KLeaf then 1 else 0)
  }

  lemma {:induction false} LeafCountAppend(a: seq<Node>, b: seq<Node>)
    ensures LeafCount(a + b) == LeafCount(a) + LeafCount(b)
    decreases |b|
  {
    if b == [] {
      assert a + b == a;
    } else {
      assert (a + b)[..|a + b| - 1] == a + b[..|b| - 1];
      LeafCountAppend(a, b[..|b| - 1]);
    }
  }

  /** num_leaves of a flattened tree is the number of leaf nodes in its
      traversal, which is the number of leaves. */
  lemma {:induction false} LeafCountOfFlatten(reg: set<TypeId>, x: PyObj)
    ensures LeafCount(Nodes(reg, x)) == |LeavesOf(reg, x)|
    decreases x, 1
  {
    FlattenPostOrder(reg, x);
    var t := Nodes(reg, x);
    var root := RootOf(reg, x, |LeavesOf(reg, x)|, |t|);
    LeafCountAppend(Concat(ChildDefs(reg, x)), [root]);
    assert LeafCount([root]) == (if root.kind == KLeaf then 1 else 0) by {
      assert [root][..0] == [];
    }
    if GetKind(reg, x) == KLeaf {
      assert ChildDefs(reg, x) == [];
    } else {
      LeafCountOfChildren(reg, x, 0);
      assert ChildDefs(reg, x)[0..] == ChildDefs(reg, x);
      assert ChildLeaves(reg, x)[0..] == ChildLeaves(reg, x);
    }
  }

  lemma {:induction false} LeafCountOfChildren(reg: set<TypeId>, x: PyObj, i: nat)
    requires i <= Arity(reg, x)
    ensures LeafCount(Concat(ChildDefs(reg, x)[i..])) == |Concat(ChildLeaves(reg, x)[i..])|
    decreases x, 0, Arity(reg, x) - i
  {
    if i == Arity(reg, x) {
      assert ChildDefs(reg, x)[i..] == [];
      assert ChildLeaves(reg, x)[i..] == [];
    } else {
      var child := ChildAt(reg, x, i);
      LeafCountOfFlatten(reg, child);
      LeafCountOfChildren(reg, x, i + 1);
      assert ChildDefs(reg, x)[i..][1..] == ChildDefs(reg, x)[i + 1..];
      assert ChildLeaves(reg, x)[i..][1..] == ChildLeaves(reg, x)[i + 1..];
      LeafCountAppend(Nodes(reg, child), Concat(ChildDefs(reg, x)[i + 1..]));
    }
  }

  /** Node j's counts are those of the block of numNodes nodes that ends at
      it: the block its subtree occupies in post-order. */
  predicate CountedAt(t: seq<Node>, j: nat)
    requires j < |t|
  {
    1 <= t[j].numNodes <= j + 1 && t[j].numLeaves == LeafCount(t[j + 1 - t[j].numNodes..j + 1])
  }

  predicate Counted(t: seq<Node>)
  {
    forall j :: 0 <= j < |t| ==> CountedAt(t, j)
  }

  lemma CountedAppend(a: seq<Node>, b: seq<Node>)
    requires Counted(a) && Counted(b)
    ensures Counted(a + b)
  {
    forall j | 0 <= j < |a + b| ensures CountedAt(a + b, j) {
      if j < |a| {
        assert CountedAt(a, j);
        var n := a[j].numNodes;
        assert (a + b)[j + 1 - n..j + 1] == a[j + 1 - n..j + 1];
      } else {
        var k := j - |a|;
        assert CountedAt(b, k);
        var n := b[k].numNodes;
        assert (a + b)[|a|..] == b;
        assert (a + b)[j + 1 - n..j + 1] == (a + b)[|a|..][k + 1 - n..k + 1];
      }
    }
  }

  lemma {:induction false} CountedConcat(parts: seq<seq<Node>>)
    requires forall i :: 0 <= i < |parts| ==> Counted(parts[i])
    ensures Counted(Concat(parts))
  {
    if parts != [] {
      CountedConcat(parts[1..]);
      CountedAppend(parts[0], Concat(parts[1..]));
    }
  }

  lemma CountedSnoc(a: seq<Node>, n: Node)
    requires Counted(a) && CountedAt(a + [n], |a|)
    ensures Counted(a + [n])
  {
    forall j | 0 <= j < |a| ensures CountedAt(a + [n], j) {
      assert CountedAt(a, j);
      var k := a[j].numNodes;
      assert (a + [n])[j + 1 - k..j + 1] == a[j + 1 - k..j + 1];
    }
  }

  /** Every node of a flattened tree carries the leaf and node counts of its
      own subtree. */
  lemma {:induction false} FlattenCounted(reg: set<TypeId>, x: PyObj)
    ensures Counted(Nodes(reg, x))
    decreases x
  {
    FlattenPostOrder(reg, x);
    LeafCountOfFlatten(reg, x);
    var t := Nodes(reg, x);
    var ds := ChildDefs(reg, x);
    forall i | 0 <= i < |ds| ensures Counted(ds[i]) {
      FlattenCounted(reg, ChildAt(reg, x, i));
    }
    CountedConcat(ds);
    var root := t[|t| - 1];
    assert t == Concat(ds) + [root];
    assert t[|t| - root.numNodes..|t|] == t;
    assert CountedAt(t, |t| - 1);
    CountedSnoc(Concat(ds), root);
  }

  // ---------------------------------------------------------------------
  // Rebuilding

  /** dict[keys[i]] = values[i] for each i in turn, starting empty. */
  function BuildDict(keys: seq<Key>, values: seq<PyObj>): map<Key, PyObj>
    requires |values| <= |keys|
  {
    if values == [] then map[]
    else BuildDict(keys, values[..|values| - 1])[keys[|values| - 1] := values[|values| - 1]]
  }

  /** With distinct keys, the built dict maps the i-th key to the i-th value
      and holds no other key. */
  lemma {:induction false} BuildDictMaps(keys: seq<Key>, values: seq<PyObj>)
    requires |values| <= |keys|
    requires forall i, j :: 0 <= i < j < |keys| ==> keys[i] < keys[j]
    ensures forall k :: k in BuildDict(keys, values) <==> exists i :: 0 <= i < |values| && keys[i] == k
    ensures forall i :: 0 <= i < |values| ==> BuildDict(keys, values)[keys[i]] == values[i]
  {
    if values != [] {
      var n := |values| - 1;
      BuildDictMaps(keys, values[..n]);
      forall i | 0 <= i < n ensures keys[i] != keys[n] {
        assert keys[i] < keys[n];
      }
    }
  }

  /** Rebuilding a dict from its sorted keys and the values in that order
      gives the dict back. */
  lemma BuildDictOf(m: map<Key, PyObj>, keys: seq<Key>, values: seq<PyObj>)
    requires |values| == |keys|
    requires forall i, j :: 0 <= i < j < |keys| ==> keys[i] < keys[j]
    requires forall i :: 0 <= i < |keys| ==> keys[i] in m && values[i] == m[keys[i]]
    requires forall k :: k in m ==> k in keys
    ensures BuildDict(keys, values) == m
  {
    BuildDictMaps(keys, values);
    var d := BuildDict(keys, values);
    forall k | k in m ensures k in d && d[k] == m[k] {
      var i :| 0 <= i < |keys| && keys[i] == k;
    }
    forall k | k in d ensures k in m {
      var i :| 0 <= i < |values| && keys[i] == k;
    }
    assert d.Keys == m.Keys;
  }

  lemma RebuildDict(m: map<Key, PyObj>)
    ensures var keys := SortedKeys(m.Keys);
            BuildDict(keys, seq(|keys|, i requires 0 <= i < |keys| => m[keys[i]])) == m
  {
    var keys := SortedKeys(m.Keys);
    BuildDictOf(m, keys, seq(|keys|, i requires 0 <= i < |keys| => m[keys[i]]));
  }

  /** MakeNode: a node of the given kind over the given children. */
  function MakeNode(node: Node, children: seq<PyObj>): (r: Outcome<PyObj>)
    ensures |children| != node.arity ==> r == Raise(ArityMismatch)
    ensures |children| == node.arity && node.kind == KLeaf ==> r == Raise(LeafNotImplemented)
    ensures r.Done? ==> node.kind != KLeaf && |children| == node.arity
  {
    if |children| != node.arity then Raise(ArityMismatch)
    else match node.kind
      case KLeaf => Raise(LeafNotImplemented)
      case KNone => Done(NoneObj)
      case KTuple => Done(TupleObj(children))
      case KNamedTuple =>
        if node.data.TypeData? then Done(NamedTupleObj(node.data.typ, children)) else Raise(BadNodeData)
      case KList => Done(ListObj(children))
      case KDict =>
        if node.data.Keys? && |children| <= |node.data.keys| then Done(DictObj(BuildDict(node.data.keys, children)))
        else Raise(BadNodeData)
      case KCustom =>
        if node.custom.Some? && node.data.Aux? then Done(CustomObj(node.custom.value, node.data.aux, children))
        else Raise(BadNodeData)
  }

  /** The node flattening records for a container rebuilds a container of
      the same kind over any children, and the container itself over its
      own children. */
  lemma MakeNodeInverse(reg: set<TypeId>, x: PyObj, numLeaves: int, numNodes: int, cs: seq<PyObj>)
    requires GetKind(reg, x) != KLeaf && |cs| == Arity(reg, x)
    ensures MakeNode(RootOf(reg, x, numLeaves, numNodes), cs).Done?
    ensures cs == ChildObjects(reg, x) ==> MakeNode(RootOf(reg, x, numLeaves, numNodes), cs) == Done(x)
  {
    if x.DictObj? {
      MakeDictInverse(reg, x.entries, RootOf(reg, x, numLeaves, numNodes), cs);
    } else if cs == ChildObjects(reg, x) {
      assert !x.NoneObj? ==> cs == x.items;
    }
  }

  lemma MakeDictInverse(reg: set<TypeId>, m: map<Key, PyObj>, node: Node, cs: seq<PyObj>)
    requires node == RootOf(reg, DictObj(m), node.numLeaves, node.numNodes) && |cs| == |m|
    ensures MakeNode(node, cs).Done?
    ensures cs == ChildObjects(reg, DictObj(m)) ==> MakeNode(node, cs) == Done(DictObj(m))
  {
    var keys := SortedKeys(m.Keys);
    assert node.data == Keys(keys) && |keys| == |m|;
    if cs == ChildObjects(reg, DictObj(m)) {
      forall i | 0 <= i < |keys| ensures keys[i] in m && cs[i] == m[keys[i]] {
        assert cs[i] == ChildAt(reg, DictObj(m), i);
      }
      BuildDictOf(m, keys, cs);
    }
  }

  /** One node of Unflatten's agenda loop: a leaf takes the next leaf; any
      other node replaces its arity topmost agenda entries by the node built
      over them. */
  function StepNode(node: Node, leaves: seq<PyObj>, agenda: seq<PyObj>): Outcome<(seq<PyObj>, seq<PyObj>)>
  {
    if |agenda| < node.arity then Raise(TooFewElements)
    else if node.kind == KLeaf then
      if leaves == [] then Raise(TooFewLeaves) else Done((leaves[1..], agenda + [leaves[0]]))
    else
      match MakeNode(node, agenda[|agenda| - node.arity..])
      case Raise(e) => Raise(e)
      case Done(o) => Done((leaves, agenda[..|agenda| - node.arity] + [o]))
  }

  /** The agenda loop over a whole traversal: the leaves left and the
      agenda at the end, or the first exception. */
  function Run(t: seq<Node>, leaves: seq<PyObj>, agenda: seq<PyObj>): Outcome<(seq<PyObj>, seq<PyObj>)>
    decreases |t|
  {
    if t == [] then Done((leaves, agenda))
    else
      match StepNode(t[0], leaves, agenda)
      case Raise(e) => Raise(e)
      case Done(next) => Run(t[1..], next.0, next.1)
  }

  lemma RunCons(t: seq<Node>, leaves: seq<PyObj>, agenda: seq<PyObj>)
    requires t != []
    ensures Run(t, leaves, agenda) == match StepNode(t[0], leaves, agenda)
                                      case Raise(e) => Raise(e)
                                      case Done(next) => Run(t[1..], next.0, next.1)
  {
  }

  /** Unflatten's result: leaves left over or an agenda that is not one
      object are errors. */
  function UnflattenSpec(t: seq<Node>, leaves: seq<PyObj>): Outcome<PyObj>
  {
    match Run(t, leaves, [])
    case Raise(e) => Raise(e)
    case Done(final) =>
      if final.0 != [] then Raise(TooManyLeaves)
      else if |final.1| != 1 then Raise(NotSingleton)
      else Done(final.1[0])
  }

  /** Unflatten: one pass over the traversal with an agenda stack. */
  method Unflatten(traversal: seq<Node>, leaves: seq<PyObj>) returns (r: Outcome<PyObj>)
    ensures r == UnflattenSpec(traversal, leaves)
  {
    var agenda: seq<PyObj> := [];
    var it := 0;
    var i := 0;
    while i < |traversal|
      invariant 0 <= i <= |traversal| && 0 <= it <= |leaves|
      invariant Run(traversal, leaves, []) == Run(traversal[i..], leaves[it..], agenda)
    {
      var node := traversal[i];
      RunCons(traversal[i..], leaves[it..], agenda);
      assert traversal[i..][0] == node && traversal[i..][1..] == traversal[i + 1..];
      if |agenda| < node.arity {
        return Raise(TooFewElements);
      }
      if node.kind == KLeaf {
        if it == |leaves| {
          return Raise(TooFewLeaves);
        }
        assert leaves[it..][0] == leaves[it] && leaves[it..][1..] == leaves[it + 1..];
        agenda := agenda + [leaves[it]];
        it := it + 1;
      } else {
        var size := |agenda|;
        var o := MakeNode(node, agenda[size - node.arity..]);
        if o.Raise? {
          return Raise(o.error);
        }
        agenda := agenda[..size - node.arity] + [o.value];
      }
      i := i + 1;
    }
    assert traversal[i..] == [];
    if it != |leaves| {
      return Raise(TooManyLeaves);
    }
    assert leaves[it..] == [];
    if |agenda| != 1 {
      return Raise(NotSingleton);
    }
    return Done(agenda[0]);
  }

  // ---------------------------------------------------------------------
  // Round trip

  /** Running a concatenation runs the first part, then the second from
      where the first stopped. */
  lemma {:induction false} RunAppend(a: seq<Node>, b: seq<Node>, leaves: seq<PyObj>, agenda: seq<PyObj>)
    ensures Run(a + b, leaves, agenda) == match Run(a, leaves, agenda)
                                          case Raise(e) => Raise(e)
                                          case Done(mid) => Run(b, mid.0, mid.1)
    decreases |a|
  {
    if a == [] {
      assert a + b == b;
    } else {
      assert (a + b)[0] == a[0] && (a + b)[1..] == a[1..] + b;
      RunCons(a + b, leaves, agenda);
      RunCons(a, leaves, agenda);
      match StepNode(a[0], leaves, agenda)
      case Raise(e) =>
      case Done(next) => RunAppend(a[1..], b, next.0, next.1);
    }
  }

  /** A run from (leaves, agenda) that needs n leaves: with fewer it raises
      TooFewLeaves; otherwise it leaves the rest of the leaves, keeps the
      agenda and pushes k objects onto it, which are `produced` when the
      leaves taken are `expected`. */
  predicate Consumes(r: Outcome<(seq<PyObj>, seq<PyObj>)>, leaves: seq<PyObj>, agenda: seq<PyObj>,
                     n: nat, k: nat, expected: seq<PyObj>, produced: seq<PyObj>)
  {
    (|leaves| < n ==> r == Raise(TooFewLeaves)) &&
    (|leaves| >= n ==> r.Done? && r.value.0 == leaves[n..] && |r.value.1| == |agenda| + k &&
                       r.value.1[..|agenda|] == agenda &&
                       (leaves[..n] == expected ==> r.value.1[|agenda|..] == produced))
  }

  lemma ConsumesThen(a: seq<Node>, b: seq<Node>, leaves: seq<PyObj>, agenda: seq<PyObj>,
                     n1: nat, k1: nat, la: seq<PyObj>, pa: seq<PyObj>,
                     n2: nat, k2: nat, lb: seq<PyObj>, pb: seq<PyObj>)
    requires |la| == n1 && |pa| == k1
    requires Consumes(Run(a, leaves, agenda), leaves, agenda, n1, k1, la, pa)
    requires |leaves| >= n1 ==>
               var mid := Run(a, leaves, agenda).value;
               Consumes(Run(b, mid.0, mid.1), mid.0, mid.1, n2, k2, lb, pb)
    ensures Consumes(Run(a + b, leaves, agenda), leaves, agenda, n1 + n2, k1 + k2, la + lb, pa + pb)
  {
    RunAppend(a, b, leaves, agenda);
    if |leaves| >= n1 {
      var mid := Run(a, leaves, agenda).value;
      if |leaves| >= n1 + n2 {
        var r := Run(b, mid.0, mid.1).value;
        assert leaves[n1..][n2..] == leaves[n1 + n2..];
        assert r.1[..|agenda|] == r.1[..|mid.1|][..|agenda|];
        if leaves[..n1 + n2] == la + lb {
          SplitTaken(leaves, n1, n2, la, lb);
          assert r.1[|agenda|..] == mid.1[|agenda|..] + r.1[|mid.1|..];
        }
      }
    }
  }

  lemma SplitTaken<T>(s: seq<T>, n1: nat, n2: nat, a: seq<T>, b: seq<T>)
    requires n1 + n2 <= |s| && |a| == n1 && s[..n1 + n2] == a + b
    ensures s[..n1] == a && s[n1..][..n2] == b
  {
    var t := s[..n1 + n2];
    assert t[..n1] == s[..n1];
    assert t[n1..] == s[n1..][..n2];
    assert (a + b)[..n1] == a && (a + b)[n1..] == b;
  }

  /** Unflatten's loop over a flattened tree takes exactly as many leaves as
      the tree has, failing with TooFewLeaves when there are fewer, and
      pushes one object: the tree itself when it is given the tree's own
      leaves. */
  lemma {:induction false} RunNodes(reg: set<TypeId>, x: PyObj, leaves: seq<PyObj>, agenda: seq<PyObj>)
    ensures Consumes(Run(Nodes(reg, x), leaves, agenda), leaves, agenda, |LeavesOf(reg, x)|, 1, LeavesOf(reg, x), [x])
    decreases x, 1
  {
    FlattenPostOrder(reg, x);
    var n := |LeavesOf(reg, x)|;
    var t := Nodes(reg, x);
    var root := RootOf(reg, x, n, |t|);
    var ds := ChildDefs(reg, x);
    RunAppend(Concat(ds), [root], leaves, agenda);
    RunCons([root], leaves, agenda);
    assert [root][1..] == [];
    if GetKind(reg, x) == KLeaf {
      assert ds == [] && n == 1;
      if leaves != [] {
        assert leaves[..1] == [leaves[0]];
      }
    } else {
      assert ds[0..] == ds;
      assert ChildLeaves(reg, x)[0..] == ChildLeaves(reg, x);
      RunChildren(reg, x, 0, leaves, agenda);
      if |leaves| >= n {
        var mid := Run(Concat(ds), leaves, agenda).value;
        RunRoot(reg, x, root, mid.0, mid.1, agenda);
      }
    }
  }

  /** The root's step after its children: it replaces the children pushed
      onto the agenda by the node built over them, x itself when they are
      x's children. */
  lemma RunRoot(reg: set<TypeId>, x: PyObj, root: Node, leaves: seq<PyObj>, stack: seq<PyObj>, agenda: seq<PyObj>)
    requires GetKind(reg, x) != KLeaf && root == RootOf(reg, x, root.numLeaves, root.numNodes)
    requires |stack| == |agenda| + Arity(reg, x) && stack[..|agenda|] == agenda
    ensures var r := Run([root], leaves, stack);
            r.Done? && r.value.0 == leaves && |r.value.1| == |agenda| + 1 && r.value.1[..|agenda|] == agenda &&
            (stack[|agenda|..] == ChildObjects(reg, x) ==> r.value.1[|agenda|..] == [x])
  {
    var cs := stack[|agenda|..];
    assert stack[|stack| - root.arity..] == cs;
    assert stack[..|stack| - root.arity] == agenda;
    MakeNodeInverse(reg, x, root.numLeaves, root.numNodes, cs);
    var o := MakeNode(root, cs).value;
    assert StepNode(root, leaves, stack) == Done((leaves, agenda + [o]));
    RunCons([root], leaves, stack);
    assert [root][1..] == [];
    assert (agenda + [o])[..|agenda|] == agenda;
    assert (agenda + [o])[|agenda|..] == [o];
  }

  lemma RunNothing(leaves: seq<PyObj>, agenda: seq<PyObj>)
    ensures Consumes(Run([], leaves, agenda), leaves, agenda, 0, 0, [], [])
  {
    assert leaves[0..] == leaves && leaves[..0] == [];
    assert agenda[..|agenda|] == agenda && agenda[|agenda|..] == [];
  }

  /** The children's part of the traversal, from the i-th child on. */
  lemma ChildrenSplit(reg: set<TypeId>, x: PyObj, i: nat)
    requires i < Arity(reg, x)
    ensures Concat(ChildDefs(reg, x)[i..]) == Nodes(reg, ChildAt(reg, x, i)) + Concat(ChildDefs(reg, x)[i + 1..])
    ensures Concat(ChildLeaves(reg, x)[i..]) == LeavesOf(reg, ChildAt(reg, x, i)) + Concat(ChildLeaves(reg, x)[i + 1..])
    ensures ChildObjects(reg, x)[i..] == [ChildAt(reg, x, i)] + ChildObjects(reg, x)[i + 1..]
  {
    ConcatFrom(ChildDefs(reg, x), i);
    ConcatFrom(ChildLeaves(reg, x), i);
    SliceFrom(ChildObjects(reg, x), i);
  }

  lemma ConcatFrom<T>(parts: seq<seq<T>>, i: nat)
    requires i < |parts|
    ensures Concat(parts[i..]) == parts[i] + Concat(parts[i + 1..])
  {
    assert parts[i..][1..] == parts[i + 1..];
  }

  lemma SliceFrom<T>(s: seq<T>, i: nat)
    requires i < |s|
    ensures s[i..] == [s[i]] + s[i + 1..]
  {
  }

  lemma {:induction false} RunChildren(reg: set<TypeId>, x: PyObj, i: nat, leaves: seq<PyObj>, agenda: seq<PyObj>)
    requires i <= Arity(reg, x)
    ensures Consumes(Run(Concat(ChildDefs(reg, x)[i..]), leaves, agenda), leaves, agenda,
                     |Concat(ChildLeaves(reg, x)[i..])|, Arity(reg, x) - i,
                     Concat(ChildLeaves(reg, x)[i..]), ChildObjects(reg, x)[i..])
    decreases x, 0, Arity(reg, x) - i
  {
    if i == Arity(reg, x) {
      assert ChildDefs(reg, x)[i..] == [] && ChildLeaves(reg, x)[i..] == [] && ChildObjects(reg, x)[i..] == [];
      RunNothing(leaves, agenda);
    } else {
      var child := ChildAt(reg, x, i);
      ChildrenSplit(reg, x, i);
      var restDefs := Concat(ChildDefs(reg, x)[i + 1..]);
      var restLeaves := Concat(ChildLeaves(reg, x)[i + 1..]);
      var n1 := |LeavesOf(reg, child)|;
      RunNodes(reg, child, leaves, agenda);
      if |leaves| >= n1 {
        var mid := Run(Nodes(reg, child), leaves, agenda).value;
        RunChildren(reg, x, i + 1, mid.0, mid.1);
      }
      ConsumesThen(Nodes(reg, child), restDefs, leaves, agenda,
                   n1, 1, LeavesOf(reg, child), [child],
                   |restLeaves|, Arity(reg, x) - i - 1, restLeaves, ChildObjects(reg, x)[i + 1..]);
    }
  }

  /** Unflatten against a flattened tree: too few leaves and too many leaves
      raise, the right number is accepted, and the tree's own leaves give
      the tree back. */
  lemma UnflattenFlatten(reg: set<TypeId>, x: PyObj, leaves: seq<PyObj>)
    ensures var n := |LeavesOf(reg, x)|;
            var r := UnflattenSpec(Nodes(reg, x), leaves);
            (|leaves| < n ==> r == Raise(TooFewLeaves)) &&
            (|leaves| > n ==> r == Raise(TooManyLeaves)) &&
            (|leaves| == n ==> r.Done?)
    ensures UnflattenSpec(Nodes(reg, x), LeavesOf(reg, x)) == Done(x)
  {
    RunNodes(reg, x, leaves, []);
    RunNodes(reg, x, LeavesOf(reg, x), []);
    var n := |LeavesOf(reg, x)|;
    assert LeavesOf(reg, x)[..n] == LeavesOf(reg, x);
    assert LeavesOf(reg, x)[n..] == [];
  }

  // ---------------------------------------------------------------------
  // Equality of tree definitions

  function StripCounts(n: Node): Node
  {
    n.(numLeaves := 0, numNodes := 0)
  }

  /** A traversal with the counts of every node cleared. */
  function Strip(t: seq<Node>): (r: seq<Node>)
    ensures |r| == |t|
  {
    seq(|t|, j requires 0 <= j < |t| => StripCounts(t[j]))
  }

  /** The per-node test of operator==: kind, arity, presence of node data,
      custom type, and the node data itself when present. */
  predicate SameNode(a: Node, b: Node)
  {
    a.kind == b.kind && a.arity == b.arity && (a.data == NoData) == (b.data == NoData) &&
    a.custom == b.custom && (a.data != NoData ==> a.data == b.data)
  }

  /** operator==: equal exactly when the traversals agree on everything but
      the counts. */
  function TreeDefEq(a: seq<Node>, b: seq<Node>): (r: bool)
    ensures r <==> Strip(a) == Strip(b)
  {
    if |a| != |b| then false
    else
      assert Strip(a) == Strip(b) <==> forall j :: 0 <= j < |a| ==> SameNode(a[j], b[j]) by {
        if Strip(a) == Strip(b) {
          forall j | 0 <= j < |a| ensures SameNode(a[j], b[j]) {
            assert Strip(a)[j] == Strip(b)[j];
          }
        }
      }
      forall j :: 0 <= j < |a| ==> SameNode(a[j], b[j])
  }

  lemma StepIgnoresCounts(a: Node, b: Node, leaves: seq<PyObj>, agenda: seq<PyObj>)
    requires StripCounts(a) == StripCounts(b)
    ensures StepNode(a, leaves, agenda) == StepNode(b, leaves, agenda)
  {
    assert a.kind == b.kind && a.arity == b.arity && a.data == b.data && a.custom == b.custom;
  }

  lemma {:induction false} RunIgnoresCounts(a: seq<Node>, b: seq<Node>, leaves: seq<PyObj>, agenda: seq<PyObj>)
    requires Strip(a) == Strip(b)
    ensures Run(a, leaves, agenda) == Run(b, leaves, agenda)
    decreases |a|
  {
    if a != [] {
      assert Strip(a)[0] == Strip(b)[0];
      StepIgnoresCounts(a[0], b[0], leaves, agenda);
      assert Strip(a[1..]) == Strip(b[1..]) by {
        forall j | 0 <= j < |a| - 1 ensures Strip(a[1..])[j] == Strip(b[1..])[j] {
          assert Strip(a)[j + 1] == Strip(b)[j + 1];
        }
      }
      match StepNode(a[0], leaves, agenda)
      case Raise(_) =>
      case Done(next) => RunIgnoresCounts(a[1..], b[1..], next.0, next.1);
    }
  }

  /** Equal tree definitions unflatten every leaf list alike. */
  lemma EqualTreeDefsUnflattenAlike(a: seq<Node>, b: seq<Node>, leaves: seq<PyObj>)
    requires TreeDefEq(a, b)
    ensures UnflattenSpec(a, leaves) == UnflattenSpec(b, leaves)
  {
    RunIgnoresCounts(a, b, leaves, []);
  }

  // ---------------------------------------------------------------------
  // Children

  /** The children loop from position |prefix| with k children still to
      take, last first; each child is the numNodes nodes ending at the
      current position. */
  function Peel(prefix: seq<Node>, k: nat): Outcome<seq<seq<Node>>>
    requires forall j :: 0 <= j < |prefix| ==> prefix[j].numNodes >= 0
    decreases k
  {
    if k == 0 then (if prefix == [] then Done([]) else Raise(PosNotZero))
    else if prefix == [] then Raise(ChildOutOfRange)
    else
      var nn := prefix[|prefix| - 1].numNodes;
      if |prefix| < nn then Raise(WalkedOffStart)
      else
        match Peel(prefix[..|prefix| - nn], k - 1)
        case Raise(e) => Raise(e)
        case Done(cs) => Done(cs + [prefix[|prefix| - nn..]])
  }

  /** The children of a tree definition: one traversal per child of the
      root, or none for an empty definition. */
  function ChildrenSpec(t: seq<Node>): Outcome<seq<seq<Node>>>
    requires forall j :: 0 <= j < |t| ==> t[j].numNodes >= 0
  {
    if t == [] then Done([]) else Peel(t[..|t| - 1], t[|t| - 1].arity)
  }

  function AppendTo(o: Outcome<seq<seq<Node>>>, tail: seq<seq<Node>>): Outcome<seq<seq<Node>>>
  {
    match o
    case Raise(e) => Raise(e)
    case Done(cs) => Done(cs + tail)
  }

  lemma AppendToSteps(o: Outcome<seq<seq<Node>>>, s: seq<Node>, tail: seq<seq<Node>>)
    ensures AppendTo(o, []) == o
    ensures AppendTo(AppendTo(o, [s]), tail) == AppendTo(o, [s] + tail)
  {
    if o.Done? {
      assert o.value + [] == o.value;
      assert o.value + [s] + tail == o.value + ([s] + tail);
    }
  }

  /** Children: walks back from the root by the node counts of each child's
      root. */
  method Children(traversal: seq<Node>) returns (r: Outcome<seq<seq<Node>>>)
    requires forall j :: 0 <= j < |traversal| ==> traversal[j].numNodes >= 0
    ensures r == ChildrenSpec(traversal)
  {
    if |traversal| == 0 {
      return Done([]);
    }
    var root := traversal[|traversal| - 1];
    var children: seq<seq<Node>> := seq(root.arity, _ => []);
    var pos := |traversal| - 1;
    var i := root.arity;
    assert children[i..] == [];
    AppendToSteps(Peel(traversal[..pos], i), [], []);
    while i > 0
      invariant 0 <= i <= root.arity && 0 <= pos <= |traversal| - 1 && |children| == root.arity
      invariant ChildrenSpec(traversal) == AppendTo(Peel(traversal[..pos], i), children[i..])
    {
      if pos == 0 {
        return Raise(ChildOutOfRange);
      }
      var node := traversal[pos - 1];
      if pos < node.numNodes {
        return Raise(WalkedOffStart);
      }
      PeelStep(traversal, pos, i, children);
      children := children[i - 1 := traversal[pos - node.numNodes..pos]];
      pos := pos - node.numNodes;
      i := i - 1;
    }
    if pos != 0 {
      return Raise(PosNotZero);
    }
    assert children[0..] == children;
    assert traversal[..pos] == [];
    assert [] + children == children;
    return Done(children);
  }

  /** One step of the walk back: the child ending at pos is the last one
      Peel finds among the first i. */
  lemma PeelStep(traversal: seq<Node>, pos: nat, i: nat, children: seq<seq<Node>>)
    requires forall j :: 0 <= j < |traversal| ==> traversal[j].numNodes >= 0
    requires 0 < i <= |children| && 0 < pos < |traversal|
    requires pos >= traversal[pos - 1].numNodes
    requires ChildrenSpec(traversal) == AppendTo(Peel(traversal[..pos], i), children[i..])
    ensures var start := pos - traversal[pos - 1].numNodes;
            var children' := children[i - 1 := traversal[start..pos]];
            ChildrenSpec(traversal) == AppendTo(Peel(traversal[..start], i - 1), children'[i - 1..])
  {
    var node := traversal[pos - 1];
    var start := pos - node.numNodes;
    var prefix := traversal[..pos];
    assert prefix[|prefix| - 1] == node;
    assert prefix[..start] == traversal[..start];
    assert prefix[start..] == traversal[start..pos];
    AppendToSteps(Peel(traversal[..start], i - 1), traversal[start..pos], children[i..]);
    var children' := children[i - 1 := traversal[start..pos]];
    assert children'[i - 1..] == [traversal[start..pos]] + children[i..];
  }

  /** Parts that are each a traversal whose root counts all its nodes are
      recovered from their concatenation. */
  lemma {:induction false} PeelConcat(parts: seq<seq<Node>>)
    requires forall i :: 0 <= i < |parts| ==> |parts[i]| > 0 && parts[i][|parts[i]| - 1].numNodes == |parts[i]|
    requires forall j :: 0 <= j < |Concat(parts)| ==> Concat(parts)[j].numNodes >= 0
    ensures Peel(Concat(parts), |parts|) == Done(parts)
  {
    if parts != [] {
      var init := parts[..|parts| - 1];
      var last := parts[|parts| - 1];
      assert parts == init + [last];
      ConcatSnoc(init, last);
      var c := Concat(parts);
      assert c[..|c| - |last|] == Concat(init);
      assert c[|c| - |last|..] == last;
      assert c[|c| - 1] == last[|last| - 1];
      PeelConcat(init);
    }
  }

  /** children() of a flattened tree gives the flattened children. */
  lemma ChildrenOfFlatten(reg: set<TypeId>, x: PyObj)
    ensures forall j :: 0 <= j < |Nodes(reg, x)| ==> Nodes(reg, x)[j].numNodes >= 0
    ensures ChildrenSpec(Nodes(reg, x)) == Done(ChildDefs(reg, x))
  {
    FlattenPostOrder(reg, x);
    NodesCountPositive(reg, x);
    var t := Nodes(reg, x);
    var ds: seq<seq<Node>> := ChildDefs(reg, x);
    ChildDefsRooted(reg, x);
    assert t[..|t| - 1] == Concat(ds);
    PeelConcat(ds);
  }

  /** Every node of a flattening counts at least itself. */
  lemma NodesCountPositive(reg: set<TypeId>, x: PyObj)
    ensures forall j :: 0 <= j < |Nodes(reg, x)| ==> Nodes(reg, x)[j].numNodes >= 1
  {
    FlattenCounted(reg, x);
    var t := Nodes(reg, x);
    forall j | 0 <= j < |t| ensures t[j].numNodes >= 1 {
      assert CountedAt(t, j);
    }
  }

  /** Each child's traversal ends in its root, which counts the whole
      traversal. */
  lemma ChildDefsRooted(reg: set<TypeId>, x: PyObj)
    ensures var ds: seq<seq<Node>> := ChildDefs(reg, x);
      forall i :: 0 <= i < |ds| ==> |ds[i]| > 0 && ds[i][|ds[i]| - 1].numNodes == |ds[i]|
  {
    var ds: seq<seq<Node>> := ChildDefs(reg, x);
    forall i | 0 <= i < |ds| ensures |ds[i]| > 0 && ds[i][|ds[i]| - 1].numNodes == |ds[i]| {
      FlattenPostOrder(reg, ChildAt(reg, x, i));
    }
  }

  /** A dict node stores the dict's keys in ascending order, each once, and
      its children are the values in that order. */
  lemma DictVisitedInKeyOrder(reg: set<TypeId>, m: map<Key, PyObj>)
    ensures var t := Nodes(reg, DictObj(m));
            var root := t[|t| - 1];
            root.kind == KDict && root.data.Keys? && root.arity == |m| == |root.data.keys| &&
            (forall i, j :: 0 <= i < j < |root.data.keys| ==> root.data.keys[i] < root.data.keys[j]) &&
            (forall k :: k in m <==> k in root.data.keys) &&
            ChildObjects(reg, DictObj(m)) == seq(|m|, i requires 0 <= i < |m| => m[root.data.keys[i]])
  {
    var x := DictObj(m);
    var t := Nodes(reg, x);
    RootIsLast(reg, x);
    DictRoot(reg, m, t[|t| - 1]);
  }

  /** The last node of a traversal is the root. */
  lemma RootIsLast(reg: set<TypeId>, x: PyObj)
    ensures var t := Nodes(reg, x);
            |t| > 0 && t[|t| - 1] == RootOf(reg, x, |LeavesOf(reg, x)|, |t|)
  {
    FlattenPostOrder(reg, x);
  }

  /** What the root node of a dict records. */
  lemma DictRoot(reg: set<TypeId>, m: map<Key, PyObj>, root: Node)
    requires root == RootOf(reg, DictObj(m), root.numLeaves, root.numNodes)
    ensures root.kind == KDict && root.data.Keys? && root.arity == |m| == |root.data.keys|
    ensures forall i, j :: 0 <= i < j < |root.data.keys| ==> root.data.keys[i] < root.data.keys[j]
    ensures forall k :: k in m <==> k in root.data.keys
    ensures ChildObjects(reg, DictObj(m)) == seq(|m|, i requires 0 <= i < |m| => m[root.data.keys[i]])
  {
    var ks := SortedKeys(m.Keys);
    assert root.data == Keys(ks) && |ks| == |m|;
    var cs := ChildObjects(reg, DictObj(m));
    var vs := seq(|m|, i requires 0 <= i < |m| => m[ks[i]]);
    forall i | 0 <= i < |m| ensures cs[i] == vs[i] {
      assert cs[i] == ChildAt(reg, DictObj(m), i);
    }
  }

  // ---------------------------------------------------------------------
  // Tuple

  /** The root Tuple appends: a tuple node whose counts keep their default
      of zero. */
  function TupleRoot(n: nat): Node
  {
    Node(KTuple, n, NoData, None, 0, 0)
  }

  /** Tuple: the definitions' traversals one after another, then a tuple
      node over them. */
  method Tuple(defs: seq<seq<Node>>) returns (out: seq<Node>)
    ensures out == Concat(defs) + [TupleRoot(|defs|)]
  {
    out := [];
    for i := 0 to |defs|
      invariant out == Concat(defs[..i])
    {
      assert defs[..i + 1] == defs[..i] + [defs[i]];
      ConcatSnoc(defs[..i], defs[i]);
      out := out + defs[i];
    }
    assert defs[..|defs|] == defs;
    out := out + [TupleRoot(|defs|)];
  }

  /** The tuple of the children of a tuple equals that tuple's own
      definition, and unflattens to it. */
  lemma TupleOfFlattened(reg: set<TypeId>, items: seq<PyObj>)
    ensures var tuple := Concat(ChildDefs(reg, TupleObj(items))) + [TupleRoot(|items|)];
            TreeDefEq(tuple, Nodes(reg, TupleObj(items))) &&
            UnflattenSpec(tuple, Concat(ChildLeaves(reg, TupleObj(items)))) == Done(TupleObj(items))
  {
    var x := TupleObj(items);
    FlattenPostOrder(reg, x);
    var tuple := Concat(ChildDefs(reg, x)) + [TupleRoot(|items|)];
    var t := Nodes(reg, x);
    assert Strip(tuple) == Strip(t) by {
      forall j | 0 <= j < |t| ensures Strip(tuple)[j] == Strip(t)[j] {
      }
    }
    EqualTreeDefsUnflattenAlike(tuple, t, LeavesOf(reg, x));
    UnflattenFlatten(reg, x, LeavesOf(reg, x));
  }

  /** children() of a Tuple of definitions gives the definitions back when
      each root counts the nodes of its own definition. */
  lemma TupleChildren(defs: seq<seq<Node>>)
    requires forall i :: 0 <= i < |defs| ==> |defs[i]| > 0 && defs[i][|defs[i]| - 1].numNodes == |defs[i]|
    requires forall j :: 0 <= j < |Concat(defs)| ==> Concat(defs)[j].numNodes >= 0
    ensures forall j :: 0 <= j < |Concat(defs) + [TupleRoot(|defs|)]| ==> (Concat(defs) + [TupleRoot(|defs|)])[j].numNodes >= 0
    ensures ChildrenSpec(Concat(defs) + [TupleRoot(|defs|)]) == Done(defs)
  {
    var t := Concat(defs) + [TupleRoot(|defs|)];
    assert t[..|t| - 1] == Concat(defs);
    assert forall j :: 0 <= j < |t| - 1 ==> t[j] == Concat(defs)[j];
    PeelConcat(defs);
  }

  // ---------------------------------------------------------------------
  // Compose

  /** Every leaf node of the outer traversal replaced by the whole inner
      traversal. */
  function Substituted(outer: seq<Node>, inner: seq<Node>): seq<Node>
    decreases |outer|
  {
    if outer == [] then []
    else
      var last := outer[|outer| - 1];
      Substituted(outer[..|outer| - 1], inner) + (if last.kind == KLeaf then inner else [last])
  }

  /** The last node of the substitution: the inner root when the outer
      root is a leaf, the outer root otherwise. */
  lemma SubstitutedLast(outer: seq<Node>, inner: seq<Node>)
    requires |outer| > 0 && |inner| > 0
    ensures var r := Substituted(outer, inner);
            |r| > 0 && r[|r| - 1] == if outer[|outer| - 1].kind == KLeaf then inner[|inner| - 1] else outer[|outer| - 1]
  {
  }

  /** The substitution has the outer non-leaf nodes plus one copy of the
      inner traversal per outer leaf, and outer leaves times inner leaves
      leaf nodes. */
  lemma {:induction false} SubstitutedCounts(outer: seq<Node>, inner: seq<Node>)
    ensures |Substituted(outer, inner)| == (|outer| - LeafCount(outer)) + |inner| * LeafCount(outer)
    ensures LeafCount(Substituted(outer, inner)) == LeafCount(outer) * LeafCount(inner)
    decreases |outer|
  {
    if outer != [] {
      var init := outer[..|outer| - 1];
      var last := outer[|outer| - 1];
      SubstitutedCounts(init, inner);
      var piece := if last.kind == KLeaf then inner else [last];
      LeafCountAppend(Substituted(init, inner), piece);
      assert LeafCount([last]) == LeafCount([last][..0]) + (if last.kind == KLeaf then 1 else 0);
      assert [last][..0] == [];
      var l := LeafCount(init);
      if last.kind == KLeaf {
        MulSucc(l, LeafCount(inner));
        MulSucc(l, |inner|);
      }
    }
  }

  lemma MulSucc(a: int, b: int)
    ensures (a + 1) * b == a * b + b && b * (a + 1) == b * a + b
  {
  }

  function WithRootCounts(t: seq<Node>, numLeaves: int, numNodes: int): seq<Node>
    requires |t| > 0
  {
    t[..|t| - 1] + [t[|t| - 1].(numLeaves := numLeaves, numNodes := numNodes)]
  }

  /** Compose as written: the root's leaf count is multiplied in place, so
      when the outer tree is a single leaf the inner root's count is
      multiplied by itself. */
  function ComposeAsWrittenSpec(outer: seq<Node>, inner: seq<Node>): seq<Node>
    requires |outer| > 0 && |inner| > 0
  {
    SubstitutedLast(outer, inner);
    var s := Substituted(outer, inner);
    var root := outer[|outer| - 1];
    var innerRoot := inner[|inner| - 1];
    WithRootCounts(s, s[|s| - 1].numLeaves * innerRoot.numLeaves,
                   (root.numNodes - root.numLeaves) + innerRoot.numNodes * root.numLeaves)
  }

  /** Compose with the root's leaf count the product of the outer and inner
      leaf counts. */
  function ComposeSpec(outer: seq<Node>, inner: seq<Node>): seq<Node>
    requires |outer| > 0 && |inner| > 0
  {
    SubstitutedLast(outer, inner);
    var s := Substituted(outer, inner);
    var root := outer[|outer| - 1];
    var innerRoot := inner[|inner| - 1];
    WithRootCounts(s, root.numLeaves * innerRoot.numLeaves,
                   (root.numNodes - root.numLeaves) + innerRoot.numNodes * root.numLeaves)
  }

  method SubstituteLeaves(outer: seq<Node>, inner: seq<Node>) returns (out: seq<Node>)
    ensures out == Substituted(outer, inner)
  {
    out := [];
    for i := 0 to |outer|
      invariant out == Substituted(outer[..i], inner)
    {
      assert outer[..i + 1][..i] == outer[..i];
      if outer[i].kind == KLeaf {
        out := out + inner;
      } else {
        out := out + [outer[i]];
      }
    }
    assert outer[..|outer|] == outer;
  }

  method ComposeAsWritten(outer: seq<Node>, inner: seq<Node>) returns (out: seq<Node>)
    requires |outer| > 0 && |inner| > 0
    ensures out == ComposeAsWrittenSpec(outer, inner)
  {
    out := SubstituteLeaves(outer, inner);
    SubstitutedLast(outer, inner);
    var root := outer[|outer| - 1];
    var innerRoot := inner[|inner| - 1];
    var outRoot := out[|out| - 1];
    outRoot := outRoot.(numNodes := (root.numNodes - root.numLeaves) + innerRoot.numNodes * root.numLeaves);
    outRoot := outRoot.(numLeaves := outRoot.numLeaves * innerRoot.numLeaves);
    out := out[..|out| - 1] + [outRoot];
  }

  method Compose(outer: seq<Node>, inner: seq<Node>) returns (out: seq<Node>)
    requires |outer| > 0 && |inner| > 0
    ensures out == ComposeSpec(outer, inner)
  {
    out := SubstituteLeaves(outer, inner);
    SubstitutedLast(outer, inner);
    var root := outer[|outer| - 1];
    var innerRoot := inner[|inner| - 1];
    var outRoot := out[|out| - 1];
    outRoot := outRoot.(numNodes := (root.numNodes - root.numLeaves) + innerRoot.numNodes * root.numLeaves,
                        numLeaves := root.numLeaves * innerRoot.numLeaves);
    out := out[..|out| - 1] + [outRoot];
  }

  /** When both roots carry their trees' counts, so does the root of the
      composition. */
  lemma ComposeRootCounts(outer: seq<Node>, inner: seq<Node>)
    requires |outer| > 0 && |inner| > 0
    requires outer[|outer| - 1].numNodes == |outer| && outer[|outer| - 1].numLeaves == LeafCount(outer)
    requires inner[|inner| - 1].numNodes == |inner| && inner[|inner| - 1].numLeaves == LeafCount(inner)
    ensures var c := ComposeSpec(outer, inner);
            c[|c| - 1].numNodes == |c| && c[|c| - 1].numLeaves == LeafCount(c)
  {
    SubstitutedCounts(outer, inner);
    var s := Substituted(outer, inner);
    var c := ComposeSpec(outer, inner);
    assert c[..|c| - 1] == s[..|s| - 1];
    assert c == c[..|c| - 1] + [c[|c| - 1]];
    assert s == s[..|s| - 1] + [s[|s| - 1]];
    LeafCountAppend(s[..|s| - 1], [c[|c| - 1]]);
    LeafCountAppend(s[..|s| - 1], [s[|s| - 1]]);
  }

  /** Composing a single leaf with a pair of leaves: the written code
      records four leaves where there are two. */
  lemma ComposeLeafWithPairAsWritten()
    ensures var leaf := Node(KLeaf, 0, NoData, None, 1, 1);
            var pair := [leaf, leaf, Node(KTuple, 2, NoData, None, 2, 3)];
            var w := ComposeAsWrittenSpec([leaf], pair);
            var c := ComposeSpec([leaf], pair);
            w[|w| - 1].numLeaves == 4 && c[|c| - 1].numLeaves == 2 && LeafCount(c) == 2
  {
    var leaf := Node(KLeaf, 0, NoData, None, 1, 1);
    var pair := [leaf, leaf, Node(KTuple, 2, NoData, None, 2, 3)];
    assert [leaf][..0] == [];
    assert Substituted([leaf], pair) == pair;
    var c := ComposeSpec([leaf], pair);
    assert c[..2] == [leaf, leaf];
    assert c == c[..2] + [c[2]];
    LeafCountAppend(c[..2], [c[2]]);
    assert [leaf, leaf][..1] == [leaf];
    assert [c[2]][..0] == [];
  }
}
