// ResourceAliasAnalysis: which resource values of a TensorFlow MLIR function
// may refer to the same variable. Values are traced back through
// pass-through ops, and every resource value is given a set of unique
// resource ids. Two values alias when their id sets meet.
module ResourceAliasAnalysis {
  import opened Common

  // ---------------------------------------------------------------------
  // The IR seen by backtracking

  /** An SSA value, numbered so that a value is numbered after every value
      its definition passes through. */
  type Value = nat

  /** The op kinds backtracking distinguishes. */
  datatype PassKind = GraphKind | IslandKind | IdentityKind | OtherKind

  /** How a value is defined. A block argument has no defining op. An op
      result records its result number and the values it can pass through:
      the graph's fetch operands, the island's yield operands, or the
      operands of an Identity or IdentityN op. `isControl` marks an island's
      control output. */
  datatype Def =
    | BlockArgument(block: nat, number: nat)
    | OpResult(kind: PassKind, index: nat, through: seq<Value>, isControl: bool)

  type Ir = map<Value, Def>

  /** The value a pass-through result forwards, if it forwards one. */
  predicate Passes(d: Def)
  {
    d.OpResult? && d.kind != OtherKind && !(d.kind == IslandKind && d.isControl)
  }

  /** Every pass-through result has an operand for its result number, and
      that operand is an earlier value of the IR. */
  predicate WellFormed(ir: Ir)
  {
    forall v :: v in ir && Passes(ir[v]) ==>
      ir[v].index < |ir[v].through| && ir[v].through[ir[v].index] in ir &&
      ir[v].through[ir[v].index] < v
  }

  /** One backtracking step: the value a pass-through result forwards. */
  function Next(ir: Ir, v: Value): (r: Option<Value>)
    requires WellFormed(ir) && v in ir
    ensures r.Some? <==> Passes(ir[v])
    ensures r.Some? ==> r.value in ir && r.value < v
  {
    if Passes(ir[v]) then Some(ir[v].through[ir[v].index]) else None
  }

  /** Where backtracking a value ends. */
  function Backtrack(ir: Ir, v: Value): (r: Value)
    requires WellFormed(ir) && v in ir
    ensures r in ir && r <= v
    ensures Next(ir, r).None?
    decreases v
  {
    match Next(ir, v)
    case None => v
    case Some(u) => Backtrack(ir, u)
  }

  /** BacktrackValue: follows graph fetches, island yields and Identity
      operands until a block argument, an island's control output or any
      other op is reached. */
  method BacktrackValue(ir: Ir, v: Value) returns (r: Value)
    requires WellFormed(ir) && v in ir
    ensures r == Backtrack(ir, v)
  {
    r := v;
    while true
      invariant r in ir && Backtrack(ir, r) == Backtrack(ir, v)
      decreases r
    {
      var d := ir[r];
      if d.BlockArgument? {
        break;
      }
      if d.kind == GraphKind {
        r := d.through[d.index];
      } else if d.kind == IslandKind {
        if d.isControl {
          break;
        }
        r := d.through[d.index];
      } else if d.kind == IdentityKind {
        r := d.through[d.index];
      } else {
        break;
      }
    }
  }

  /** Following `k` single steps from `v`, if each step is possible. */
  function Steps(ir: Ir, v: Value, k: nat): (r: Option<Value>)
    requires WellFormed(ir) && v in ir
    ensures r.Some? ==> r.value in ir
    decreases k
  {
    if k == 0 then Some(v)
    else match Next(ir, v)
      case None => None
      case Some(u) => Steps(ir, u, k - 1)
  }

  /** Backtracking ends at the first value of the step chain that forwards
      nothing: every value before it forwards one. */
  lemma {:induction false} BacktrackIsFirstStop(ir: Ir, v: Value) returns (k: nat)
    requires WellFormed(ir) && v in ir
    ensures Steps(ir, v, k) == Some(Backtrack(ir, v))
    ensures forall j :: 0 <= j < k ==> Steps(ir, v, j).Some? && Next(ir, Steps(ir, v, j).value).Some?
    decreases v
  {
    match Next(ir, v)
    case None =>
      k := 0;
    case Some(u) =>
      var k' := BacktrackIsFirstStop(ir, u);
      k := k' + 1;
      forall j | 0 <= j < k
        ensures Steps(ir, v, j).Some? && Next(ir, Steps(ir, v, j).value).Some?
      {
        if j > 0 {
          assert Steps(ir, v, j) == Steps(ir, u, j - 1);
        }
      }
  }

  /** Backtracking a value where backtracking ended changes nothing. */
  lemma BacktrackIdempotent(ir: Ir, v: Value)
    requires WellFormed(ir) && v in ir
    ensures Backtrack(ir, Backtrack(ir, v)) == Backtrack(ir, v)
  {
  }

  /** A value backtracks to itself exactly when it forwards nothing. */
  lemma {:induction false} BacktrackFixed(ir: Ir, v: Value)
    requires WellFormed(ir) && v in ir
    ensures Backtrack(ir, v) == v <==> Next(ir, v).None?
  {
    match Next(ir, v)
    case None =>
    case Some(u) =>
      assert Backtrack(ir, v) == Backtrack(ir, u) <= u < v;
  }

  // ---------------------------------------------------------------------
  // Backtracking analysis of regions

  /** A region: empty, or a single block with the terminator's operands. */
  datatype Region = Region(id: nat, block: Option<nat>, results: seq<Value>)

  /** The BacktrackAnalysisInfo constructor: each terminator operand
      backtracked, in order; nothing for an empty region. */
  method AnalyzeRegion(ir: Ir, region: Region) returns (backtracked: seq<Value>)
    requires WellFormed(ir)
    requires region.block.Some? ==> forall v :: v in region.results ==> v in ir
    ensures region.block.None? ==> backtracked == []
    ensures region.block.Some? ==> (|backtracked| == |region.results| &&
      forall i :: 0 <= i < |backtracked| ==> backtracked[i] == Backtrack(ir, region.results[i]))
  {
    backtracked := [];
    if region.block.None? {
      return;
    }
    var results := region.results;
    for i := 0 to |results|
      invariant |backtracked| == i
      invariant forall k :: 0 <= k < i ==> backtracked[k] == Backtrack(ir, results[k])
    {
      var b := BacktrackValue(ir, results[i]);
      backtracked := backtracked + [b];
    }
  }

  /** GetArg: the argument number a region result can be traced back to,
      when it ends at an argument of the region's own block. */
  function GetArg(ir: Ir, block: Option<nat>, backtracked: seq<Value>, i: nat): (r: Option<nat>)
    requires i < |backtracked| && backtracked[i] in ir
    ensures r.Some? <==> block.Some? && ir[backtracked[i]].BlockArgument? && ir[backtracked[i]].block == block.value
    ensures r.Some? ==> r.value == ir[backtracked[i]].number
  {
    match ir[backtracked[i]]
    case BlockArgument(b, n) => if block == Some(b) then Some(n) else None
    case OpResult(_, _, _, _) => None
  }

  /** The analysis of every region of a module, made on first request. */
  class BacktrackAnalysis {
    const ir: Ir
    var infoMap: map<nat, seq<Value>>

    /** The IR is well formed and every stored analysis holds values of
        it, where backtracking ended. */
    ghost predicate Valid()
      reads this
    {
      WellFormed(ir) &&
      forall r :: r in infoMap ==> forall v :: v in infoMap[r] ==> v in ir && Next(ir, v).None?
    }

    /** Analyzes each region of the module, in walk order. */
    constructor (ir: Ir, regions: seq<Region>)
      requires WellFormed(ir)
      requires forall r :: r in regions ==> forall v :: v in r.results ==> v in ir
      ensures Valid() && this.ir == ir
      ensures forall r :: r in regions ==> r.id in infoMap
    {
      this.ir := ir;
      infoMap := map[];
      new;
      for i := 0 to |regions|
        invariant Valid()
        invariant forall k :: 0 <= k < i ==> regions[k].id in infoMap
      {
        var _ := GetOrCreateAnalysis(regions[i]);
      }
    }

    /** GetOrCreateAnalysis: analyzes a region not seen before, and keeps
        the stored analysis of one that was. */
    method GetOrCreateAnalysis(region: Region) returns (info: seq<Value>)
      requires Valid()
      requires forall v :: v in region.results ==> v in ir
      modifies this
      ensures Valid()
      ensures region.id in old(infoMap) ==> infoMap == old(infoMap)
      ensures region.id !in old(infoMap) ==> (infoMap.Keys == old(infoMap).Keys + {region.id} &&
        forall k :: k in old(infoMap) ==> infoMap[k] == old(infoMap)[k])
      ensures region.id in infoMap && info == infoMap[region.id]
      ensures region.id !in old(infoMap) && region.block.Some? ==> (|info| == |region.results| &&
        forall i :: 0 <= i < |info| ==> info[i] == Backtrack(ir, region.results[i]))
    {
      if region.id !in infoMap {
        var b := AnalyzeRegion(ir, region);
        infoMap := infoMap[region.id := b];
      }
      info := infoMap[region.id];
    }
  }

  // ---------------------------------------------------------------------
  // Unique ids of var handles

  /** The shared name with which a VarHandleOp asks for a variable nobody
      else can name (ResourceHandle::ANONYMOUS_NAME). */
  const AnonymousName: string := "cd2c89b7-88b7-44c8-ad83-06c2a9158347"

  /** The attributes of a VarHandleOp that identify its variable. */
  datatype VarHandle = VarHandle(container: string, sharedName: string, device: Option<string>)

  /** IsResourceHandleAnonymous. */
  predicate IsAnonymous(h: VarHandle)
  {
    h.sharedName == AnonymousName
  }

  /** GetVarHandleStringId: "container/shared_name/device", the device
      empty when the op has none. */
  function GetVarHandleStringId(h: VarHandle): (r: string)
    ensures StartsWith(r, h.container + "/" + h.sharedName + "/")
  {
    h.container + "/" + h.sharedName + "/" + (if h.device.Some? then h.device.value else "")
  }

  /** The position of the first slash of a string, or its length. */
  function SlashIndex(s: string): (r: nat)
    ensures r <= |s| && (r < |s| ==> s[r] == '/')
    ensures forall i :: 0 <= i < r ==> s[i] != '/'
  {
    if s == [] then 0 else if s[0] == '/' then 0 else 1 + SlashIndex(s[1..])
  }

  /** A string without a slash, then a slash: its first slash is there. */
  lemma {:induction false} SlashIndexAfter(a: string, b: string)
    requires '/' !in a
    ensures SlashIndex(a + "/" + b) == |a|
    decreases |a|
  {
    if a != [] {
      assert (a + "/" + b)[1..] == a[1..] + "/" + b;
      assert a[0] in a;
      SlashIndexAfter(a[1..], b);
    }
  }

  /** Two strings without a slash, each followed by a slash, can be told
      apart by the position of the first slash. */
  lemma SplitAtSlash(a: string, b: string, c: string, d: string)
    requires '/' !in a && '/' !in c
    requires a + "/" + b == c + "/" + d
    ensures a == c && b == d
  {
    var s := a + "/" + b;
    SlashIndexAfter(a, b);
    SlashIndexAfter(c, d);
    assert a == s[..|a|] == c;
    assert b == s[|a| + 1..] == d;
  }

  /** When containers and shared names have no slash, the string id
      determines them and the device (a missing device counting as an
      empty one). */
  lemma StringIdDetermines(h1: VarHandle, h2: VarHandle)
    requires '/' !in h1.container && '/' !in h1.sharedName
    requires '/' !in h2.container && '/' !in h2.sharedName
    requires GetVarHandleStringId(h1) == GetVarHandleStringId(h2)
    ensures h1.container == h2.container && h1.sharedName == h2.sharedName
    ensures (if h1.device.Some? then h1.device.value else "") == (if h2.device.Some? then h2.device.value else "")
  {
    var d1 := if h1.device.Some? then h1.device.value else "";
    var d2 := if h2.device.Some? then h2.device.value else "";
    StringIdParts(h1);
    StringIdParts(h2);
    SplitAtSlash(h1.container, h1.sharedName + "/" + d1, h2.container, h2.sharedName + "/" + d2);
    SplitAtSlash(h1.sharedName, d1, h2.sharedName, d2);
  }

  /** The string id regrouped as the container, a slash, and the rest. */
  lemma StringIdParts(h: VarHandle)
    ensures GetVarHandleStringId(h) ==
      h.container + "/" + (h.sharedName + "/" + (if h.device.Some? then h.device.value else ""))
  {
    var d := if h.device.Some? then h.device.value else "";
    var c := h.container + "/";
    AppendAssoc(c, h.sharedName, "/");
    AppendAssoc(c, h.sharedName + "/", d);
  }

  /** A slash inside a container lets two different variables share a
      string id, so that they are taken to alias. */
  lemma StringIdAmbiguous()
    ensures GetVarHandleStringId(VarHandle("a/b", "c", None)) ==
            GetVarHandleStringId(VarHandle("a", "b/c", None))
  {
    assert GetVarHandleStringId(VarHandle("a/b", "c", None)) == "a/b/c/";
    assert GetVarHandleStringId(VarHandle("a", "b/c", None)) == "a/b/c/";
  }

  /** The id GetOrCreateIdForVarHandle returns, with the new counter and
      name map it leaves behind through its pointer arguments. */
  datatype HandleId = HandleId(id: int, nextId: int, nameIdMap: map<string, int>)

  /** All ids a name map hands out are natural numbers below the counter. */
  predicate NamesBelow(nameIdMap: map<string, int>, nextId: int)
  {
    forall k :: k in nameIdMap ==> 0 <= nameIdMap[k] < nextId
  }

  /** GetOrCreateIdForVarHandle: an anonymous handle takes the counter's
      value as a new id; a named one reuses the id of its string id, and
      only a string id seen for the first time takes a new one. */
  function GetOrCreateIdForVarHandle(h: VarHandle, nextId: int, nameIdMap: map<string, int>): (r: HandleId)
    ensures IsAnonymous(h) ==> r.id == nextId && r.nextId == nextId + 1 && r.nameIdMap == nameIdMap
    ensures !IsAnonymous(h) ==> (GetVarHandleStringId(h) in r.nameIdMap &&
      r.nameIdMap[GetVarHandleStringId(h)] == r.id)
    ensures !IsAnonymous(h) && GetVarHandleStringId(h) in nameIdMap ==>
      r.id == nameIdMap[GetVarHandleStringId(h)] && r.nextId == nextId && r.nameIdMap == nameIdMap
    ensures !IsAnonymous(h) && GetVarHandleStringId(h) !in nameIdMap ==>
      r.id == nextId && r.nextId == nextId + 1 && r.nameIdMap.Keys == nameIdMap.Keys + {GetVarHandleStringId(h)}
    ensures forall k :: k in nameIdMap ==> k in r.nameIdMap && r.nameIdMap[k] == nameIdMap[k]
    ensures NamesBelow(nameIdMap, nextId) && nextId >= 0 ==> NamesBelow(r.nameIdMap, r.nextId) && 0 <= r.id < r.nextId
  {
    if IsAnonymous(h) then HandleId(nextId, nextId + 1, nameIdMap)
    else
      var name := GetVarHandleStringId(h);
      if name in nameIdMap then HandleId(nameIdMap[name], nextId, nameIdMap)
      else HandleId(nextId, nextId + 1, nameIdMap[name := nextId])
  }

  /** The ids a run of var handles receives, one after another, starting
      from a counter and a name map. */
  function HandleIds(hs: seq<VarHandle>, nextId: int, nameIdMap: map<string, int>): (r: (seq<int>, HandleId))
    ensures |r.0| == |hs|
    decreases |hs|
  {
    if hs == [] then ([], HandleId(nextId, nextId, nameIdMap))
    else
      var (ids, last) := HandleIds(hs[..|hs| - 1], nextId, nameIdMap);
      var h := GetOrCreateIdForVarHandle(hs[|hs| - 1], last.nextId, last.nameIdMap);
      (ids + [h.id], HandleId(h.id, h.nextId, h.nameIdMap))
  }

  /** Two handles fall on the same variable: both named, with one string
      id. */
  predicate SameVariable(h1: VarHandle, h2: VarHandle)
  {
    !IsAnonymous(h1) && !IsAnonymous(h2) && GetVarHandleStringId(h1) == GetVarHandleStringId(h2)
  }

  /** The counter only grows, the names' ids and every handle's id lie
      between the starting counter and the final one. */
  lemma {:induction false} HandleIdsBounds(hs: seq<VarHandle>, nextId: nat)
    ensures var (ids, last) := HandleIds(hs, nextId, map[]);
      last.nextId >= nextId && NamesBelow(last.nameIdMap, last.nextId) &&
      (forall k :: k in last.nameIdMap ==> nextId <= last.nameIdMap[k]) &&
      (forall i :: 0 <= i < |hs| ==> nextId <= ids[i] < last.nextId)
    decreases |hs|
  {
    if hs != [] {
      HandleIdsBounds(hs[..|hs| - 1], nextId);
    }
  }

  /** Every named handle's id is the entry of its string id. */
  lemma {:induction false} HandleIdsNamed(hs: seq<VarHandle>, nextId: nat, i: nat)
    requires i < |hs| && !IsAnonymous(hs[i])
    ensures var (ids, last) := HandleIds(hs, nextId, map[]);
      GetVarHandleStringId(hs[i]) in last.nameIdMap && last.nameIdMap[GetVarHandleStringId(hs[i])] == ids[i]
    decreases |hs|
  {
    var init := hs[..|hs| - 1];
    if i < |init| {
      HandleIdsNamed(init, nextId, i);
      assert init[i] == hs[i];
    }
  }

  /** No string id holds the id of an anonymous handle. */
  lemma {:induction false} HandleIdsAnonymous(hs: seq<VarHandle>, nextId: nat, i: nat)
    requires i < |hs| && IsAnonymous(hs[i])
    ensures var (ids, last) := HandleIds(hs, nextId, map[]);
      forall k :: k in last.nameIdMap ==> last.nameIdMap[k] != ids[i]
    decreases |hs|
  {
    var init := hs[..|hs| - 1];
    HandleIdsBounds(init, nextId);
    if i < |init| {
      HandleIdsAnonymous(init, nextId, i);
      assert init[i] == hs[i];
    }
  }

  /** Over a run of handles from an empty name map, two string ids never
      share an id. */
  lemma {:induction false} NameOfIdUnique(hs: seq<VarHandle>, nextId: nat, k1: string, k2: string)
    requires var last := HandleIds(hs, nextId, map[]).1;
      k1 in last.nameIdMap && k2 in last.nameIdMap && k1 != k2
    ensures var last := HandleIds(hs, nextId, map[]).1;
      last.nameIdMap[k1] != last.nameIdMap[k2]
    decreases |hs|
  {
    var init := hs[..|hs| - 1];
    HandleIdsBounds(init, nextId);
    var last0 := HandleIds(init, nextId, map[]).1;
    if k1 in last0.nameIdMap && k2 in last0.nameIdMap {
      NameOfIdUnique(init, nextId, k1, k2);
    }
  }

  /** Over a run of var handles that starts with an empty name map, two
      handles get one id exactly when they name the same variable: an
      anonymous handle's id is always fresh. */
  lemma {:induction false} HandleIdsShareByName(hs: seq<VarHandle>, nextId: nat)
    ensures var ids := HandleIds(hs, nextId, map[]).0;
      forall i, j :: 0 <= i < j < |hs| ==> (ids[i] == ids[j] <==> SameVariable(hs[i], hs[j]))
    decreases |hs|
  {
    if hs != [] {
      var init := hs[..|hs| - 1];
      HandleIdsShareByName(init, nextId);
      var ids0 := HandleIds(init, nextId, map[]).0;
      var n := |hs| - 1;
      var ids := HandleIds(hs, nextId, map[]).0;
      forall i, j | 0 <= i < j < |hs|
        ensures ids[i] == ids[j] <==> SameVariable(hs[i], hs[j])
      {
        if j < n {
          HandleIdsPrefix(hs, nextId, i);
          HandleIdsPrefix(hs, nextId, j);
          assert init[i] == hs[i] && init[j] == hs[j];
        } else {
          LastSharesByName(hs, nextId, i);
        }
      }
    }
  }

  /** The handles before the last keep the ids they had without it. */
  lemma HandleIdsPrefix(hs: seq<VarHandle>, nextId: nat, i: nat)
    requires i < |hs| - 1
    ensures HandleIds(hs, nextId, map[]).0[i] == HandleIds(hs[..|hs| - 1], nextId, map[]).0[i]
  {
  }

  /** The last handle shares an id with an earlier one exactly when both
      name the same variable. */
  lemma LastSharesByName(hs: seq<VarHandle>, nextId: nat, i: nat)
    requires i < |hs| - 1
    ensures var ids := HandleIds(hs, nextId, map[]).0;
      ids[i] == ids[|hs| - 1] <==> SameVariable(hs[i], hs[|hs| - 1])
  {
    var init := hs[..|hs| - 1];
    HandleIdsBounds(init, nextId);
    var (ids0, last0) := HandleIds(init, nextId, map[]);
    var n := |hs| - 1;
    var h := hs[n];
    var ids := HandleIds(hs, nextId, map[]).0;
    assert ids[i] == ids0[i] && init[i] == hs[i];
    assert ids[n] == GetOrCreateIdForVarHandle(h, last0.nextId, last0.nameIdMap).id;
    if !IsAnonymous(h) && GetVarHandleStringId(h) in last0.nameIdMap {
      if IsAnonymous(hs[i]) {
        HandleIdsAnonymous(init, nextId, i);
      } else {
        HandleIdsNamed(init, nextId, i);
        var ki, kn := GetVarHandleStringId(hs[i]), GetVarHandleStringId(h);
        if ki != kn {
          NameOfIdUnique(init, nextId, ki, kn);
        }
      }
    } else if !IsAnonymous(h) && !IsAnonymous(hs[i]) {
      HandleIdsNamed(init, nextId, i);
    }
  }

  /** An anonymous handle always gets a new id: the counter's value, which
      no name has, and the counter moves on by one. */
  lemma AnonymousIsFresh(h: VarHandle, nextId: int, nameIdMap: map<string, int>)
    requires IsAnonymous(h) && NamesBelow(nameIdMap, nextId)
    ensures var r := GetOrCreateIdForVarHandle(h, nextId, nameIdMap);
      r.nextId == nextId + 1 && r.id !in nameIdMap.Values
  {
  }

  // ---------------------------------------------------------------------
  // The two maps of the analysis

  /** The id of a resource nothing is known about; it is below every
      other id. */
  const UnknownResourceId: int := -1

  /** resource_value_to_ids_ and id_to_resource_values_. */
  datatype Maps = Maps(valueToIds: map<Value, set<int>>, idToValues: map<int, set<Value>>)

  function IdsOf(m: Maps, v: Value): set<int>
  {
    if v in m.valueToIds then m.valueToIds[v] else {}
  }

  function ValuesOf(m: Maps, id: int): set<Value>
  {
    if id in m.idToValues then m.idToValues[id] else {}
  }

  /** The maps are each other's inverse: a value has an id exactly when
      the id has the value. */
  ghost predicate Inverse(m: Maps)
  {
    forall v, id :: id in IdsOf(m, v) <==> v in ValuesOf(m, id)
  }

  /** Every id in use is the unknown id or below the counter. */
  ghost predicate IdsBelow(m: Maps, nextId: int)
  {
    forall v, id :: id in IdsOf(m, v) ==> UnknownResourceId <= id < nextId
  }

  /** The second maps keep every value and every pair of the first. */
  ghost predicate Grows(m: Maps, m': Maps)
  {
    m.valueToIds.Keys <= m'.valueToIds.Keys &&
    (forall v :: IdsOf(m, v) <= IdsOf(m', v)) &&
    (forall id :: ValuesOf(m, id) <= ValuesOf(m', id))
  }

  /** AddValueUniqueIDMapping: records the pair in both maps. */
  function AddMapping(m: Maps, v: Value, id: int): (r: Maps)
    ensures IdsOf(r, v) == IdsOf(m, v) + {id} && ValuesOf(r, id) == ValuesOf(m, id) + {v}
    ensures forall u :: u != v ==> IdsOf(r, u) == IdsOf(m, u)
    ensures forall j :: j != id ==> ValuesOf(r, j) == ValuesOf(m, j)
    ensures r.valueToIds.Keys == m.valueToIds.Keys + {v}
  {
    Maps(m.valueToIds[v := IdsOf(m, v) + {id}], m.idToValues[id := ValuesOf(m, id) + {v}])
  }

  /** Recording a pair keeps every pair already recorded, and keeps the
      two maps each other's inverse. */
  lemma AddMappingKeeps(m: Maps, v: Value, id: int)
    ensures Grows(m, AddMapping(m, v, id))
    ensures Inverse(m) ==> Inverse(AddMapping(m, v, id))
  {
  }

  /** Forwarding an operand to a result: the result takes every id of the
      operand, recorded in both maps. */
  function Forward(m: Maps, operand: Value, result: Value): (r: Maps)
    ensures IdsOf(r, result) == IdsOf(m, result) + IdsOf(m, operand)
    ensures forall u :: u != result ==> IdsOf(r, u) == IdsOf(m, u)
    ensures forall id :: ValuesOf(r, id) == ValuesOf(m, id) + (if id in IdsOf(m, operand) then {result} else {})
    ensures r.valueToIds.Keys == m.valueToIds.Keys + {result}
  {
    var ids := IdsOf(m, operand);
    var r := Maps(m.valueToIds[result := IdsOf(m, result) + ids],
                  m.idToValues + map id | id in ids :: ValuesOf(m, id) + {result});
    ForwardValues(m, ids, result, r);
    r
  }

  /** Forwarding keeps every pair already recorded, and keeps the two maps
      each other's inverse. */
  lemma ForwardKeeps(m: Maps, operand: Value, result: Value)
    ensures Grows(m, Forward(m, operand, result))
    ensures Inverse(m) ==> Inverse(Forward(m, operand, result))
  {
    var ids := IdsOf(m, operand);
    var r := Forward(m, operand, result);
    assert r.valueToIds == m.valueToIds[result := IdsOf(m, result) + ids];
    ForwardInverse(m, ids, result, r);
  }

  lemma ForwardValues(m: Maps, ids: set<int>, result: Value, r: Maps)
    requires r.idToValues == m.idToValues + map id | id in ids :: ValuesOf(m, id) + {result}
    ensures forall id :: ValuesOf(r, id) == ValuesOf(m, id) + (if id in ids then {result} else {})
  {
  }

  lemma ForwardInverse(m: Maps, ids: set<int>, result: Value, r: Maps)
    requires r.valueToIds == m.valueToIds[result := IdsOf(m, result) + ids]
    requires forall id :: ValuesOf(r, id) == ValuesOf(m, id) + (if id in ids then {result} else {})
    ensures Inverse(m) ==> Inverse(r)
  {
    if Inverse(m) {
      forall v, id ensures id in IdsOf(r, v) <==> v in ValuesOf(r, id) {
        if v == result {
          assert IdsOf(r, v) == IdsOf(m, v) + ids;
        } else {
          assert IdsOf(r, v) == IdsOf(m, v);
        }
      }
    }
  }

  /** forward_input_to_output as written: the result's ids grow, but the
      result is not added to the values of those ids. */
  function ForwardAsWritten(m: Maps, operand: Value, result: Value): (r: Maps)
    ensures IdsOf(r, result) == IdsOf(m, result) + IdsOf(m, operand)
    ensures r.idToValues == m.idToValues
  {
    Maps(m.valueToIds[result := IdsOf(m, result) + IdsOf(m, operand)], m.idToValues)
  }

  /** The smallest element of a set of ids. */
  lemma {:induction false} SmallestExists(s: set<int>)
    requires s != {}
    ensures exists m :: m in s && forall y :: y in s ==> m <= y
    decreases |s|
  {
    var x := ElementOf(s);
    if s != {x} {
      SmallestExists(s - {x});
      var m :| m in s - {x} && forall y :: y in s - {x} ==> m <= y;
      var least := if x < m then x else m;
      forall y | y in s
        ensures least <= y
      {
        if y != x {
          assert y in s - {x};
        }
      }
      assert least in s;
    }
  }

  ghost function Smallest(s: set<int>): (m: int)
    requires s != {}
    ensures m in s && forall y :: y in s ==> m <= y
  {
    SmallestExists(s);
    var m :| m in s && forall y :: y in s ==> m <= y; m
  }

  /** IsUnknownResource: the smallest id of a seen resource is the
      unknown id. */
  ghost predicate IsUnknownResource(m: Maps, v: Value)
    requires v in m.valueToIds && m.valueToIds[v] != {}
  {
    Smallest(m.valueToIds[v]) == UnknownResourceId
  }

  /** Since no id is below the unknown one, a resource is unknown exactly
      when the unknown id is among its ids. */
  lemma IsUnknownIff(m: Maps, v: Value)
    requires IdsKnown(m)
    requires v in m.valueToIds && m.valueToIds[v] != {}
    ensures IsUnknownResource(m, v) <==> UnknownResourceId in m.valueToIds[v]
  {
    var s := Smallest(m.valueToIds[v]);
    assert s in IdsOf(m, v);
  }

  /** How the id set of a value, an llvm::SmallSet<int64_t, 8>, holds its
      ids: up to eight in a vector in insertion order, and from the ninth on
      in a std::set, sorted. */
  const SmallSetInline: nat := 8

  /** SmallSet::insert of one id, on the ids in insertion order: an id
      already present is not added again. */
  function SmallInsert(order: seq<int>, id: int): (r: seq<int>)
    ensures id in r && forall x :: x in r <==> x in order || x == id
    ensures order != [] ==> r[0] == order[0]
  {
    if id in order then order else order + [id]
  }

  /** Inserting a range of ids, one after another. */
  function SmallInsertAll(order: seq<int>, ids: seq<int>): seq<int>
    decreases |ids|
  {
    if ids == [] then order else SmallInsertAll(SmallInsert(order, ids[0]), ids[1..])
  }

  /** *begin() of the set: the first id inserted while the set is small,
      the smallest once it has spilled into the std::set. */
  ghost function SmallBegin(order: seq<int>): int
    requires order != []
  {
    if |order| <= SmallSetInline then order[0]
    else
      var s := set x | x in order;
      assert order[0] in s;
      Smallest(s)
  }

  /** IsUnknownResource as written: *begin() is the unknown id, on the
      premise, stated in the source's comment, that the set is sorted. */
  ghost predicate IsUnknownAsWritten(order: seq<int>)
    requires order != []
  {
    SmallBegin(order) == UnknownResourceId
  }

  /** As written, a resource is found unknown exactly when the unknown id
      is among its ids and either it was inserted first or the set holds
      more than eight ids. */
  lemma AsWrittenUnknownIff(order: seq<int>)
    requires order != []
    requires forall x :: x in order ==> UnknownResourceId <= x
    ensures IsUnknownAsWritten(order) <==>
      UnknownResourceId in order && (order[0] == UnknownResourceId || |order| > SmallSetInline)
  {
    if |order| > SmallSetInline {
      var s := set x | x in order;
      assert order[0] in s;
      var least := Smallest(s);
      if UnknownResourceId in order {
        assert UnknownResourceId in s;
      }
    }
  }

  /** An If result whose then-operand has id 3 and whose else-operand is
      unknown (the result of an op the walk does not know): forwarding
      inserts 3 first and then the unknown id, so as written the result is
      not unknown although the unknown id is among its ids, where the
      corrected IsUnknownResource, the smallest id, finds it unknown. */
  lemma LateUnknownMissedAsWritten()
    ensures var order := SmallInsertAll(SmallInsertAll([], [3]), [UnknownResourceId]);
      order == [3, UnknownResourceId] && !IsUnknownAsWritten(order)
    ensures var m := Maps(map[0 := {3, UnknownResourceId}], map[3 := {0}, UnknownResourceId := {0}]);
      IdsKnown(m) && IsUnknownResource(m, 0)
  {
    var order := SmallInsertAll(SmallInsertAll([], [3]), [UnknownResourceId]);
    assert SmallInsertAll([], [3]) == [3] by {
      assert [3][1..] == [];
    }
    assert SmallInsert([3], UnknownResourceId) == [3, UnknownResourceId] by {
      assert UnknownResourceId !in [3];
    }
    assert SmallInsertAll([3], [UnknownResourceId]) == SmallInsertAll([3, UnknownResourceId], []) by {
      assert [UnknownResourceId][1..] == [];
    }
    var m := Maps(map[0 := {3, UnknownResourceId}], map[3 := {0}, UnknownResourceId := {0}]);
    assert IdsKnown(m) by {
      forall v, id | id in IdsOf(m, v)
        ensures UnknownResourceId <= id
      {
        assert v == 0;
      }
    }
    IsUnknownIff(m, 0);
  }

  /** GetResourceAliases: every value of every id of the resource. The
      resource must have been seen and must not be unknown, and each of its
      ids must have values. */
  function GetResourceAliases(m: Maps, v: Value): (r: set<Value>)
    requires v in m.valueToIds && m.valueToIds[v] != {} && !IsUnknownResource(m, v)
    requires forall id :: id in m.valueToIds[v] ==> id in m.idToValues
    ensures forall u :: u in r <==> exists id :: id in IdsOf(m, v) && u in ValuesOf(m, id)
  {
    set id, u | id in IdsOf(m, v) && u in ValuesOf(m, id) :: u
  }

  /** When the maps are inverse, the aliases of a resource are exactly the
      values that share an id with it, the resource among them, and
      aliasing is symmetric. */
  lemma AliasesShareId(m: Maps, v: Value, u: Value)
    requires Inverse(m)
    requires v in m.valueToIds && m.valueToIds[v] != {} && !IsUnknownResource(m, v)
    requires u in m.valueToIds && m.valueToIds[u] != {} && !IsUnknownResource(m, u)
    ensures forall id :: id in m.valueToIds[v] ==> id in m.idToValues
    ensures forall id :: id in m.valueToIds[u] ==> id in m.idToValues
    ensures u in GetResourceAliases(m, v) <==> IdsOf(m, u) * IdsOf(m, v) != {}
    ensures u in GetResourceAliases(m, v) <==> v in GetResourceAliases(m, u)
    ensures v in GetResourceAliases(m, v)
  {
    forall id | id in m.valueToIds[v]
      ensures id in m.idToValues
    {
      assert id in IdsOf(m, v);
      assert v in ValuesOf(m, id);
    }
    forall id | id in m.valueToIds[u]
      ensures id in m.idToValues
    {
      assert id in IdsOf(m, u);
      assert u in ValuesOf(m, id);
    }
    var id := ElementOf(m.valueToIds[v]);
    assert id in IdsOf(m, v);
    assert v in ValuesOf(m, id);
    if u in GetResourceAliases(m, v) {
      var j :| j in IdsOf(m, v) && u in ValuesOf(m, j);
      assert j in IdsOf(m, u) * IdsOf(m, v);
    }
    if IdsOf(m, u) * IdsOf(m, v) != {} {
      var j := ElementOf(IdsOf(m, u) * IdsOf(m, v));
      assert u in ValuesOf(m, j) && v in ValuesOf(m, j);
    }
  }

  /** With the corrected forwarding, a result forwarded from a resource is
      one of that resource's aliases. */
  lemma ForwardedIsAlias(m: Maps, operand: Value, result: Value)
    requires Inverse(m) && IdsKnown(m) && operand != result
    requires operand in m.valueToIds && m.valueToIds[operand] != {} && !IsUnknownResource(m, operand)
    requires IdsOf(m, result) == {}
    ensures var r := Forward(m, operand, result);
      operand in r.valueToIds && r.valueToIds[operand] == m.valueToIds[operand] &&
      (forall id :: id in r.valueToIds[operand] ==> id in r.idToValues) &&
      result in GetResourceAliases(r, operand)
  {
    var r := Forward(m, operand, result);
    assert IdsOf(r, operand) == IdsOf(m, operand);
    assert IdsOf(r, result) == IdsOf(m, operand);
    IsUnknownIff(m, operand);
    AliasesShareId(r, operand, result);
  }

  /** As written, forwarding a var handle's resource through an Identity
      leaves the Identity's result out of the handle's aliases, although
      the two share the handle's id. */
  lemma ForwardAsWrittenMissesAlias()
    ensures var m := ForwardAsWritten(AddMapping(Maps(map[], map[]), 0, 0), 0, 1);
      0 in m.valueToIds && m.valueToIds[0] == {0} && IdsOf(m, 1) == {0} &&
      m.idToValues == map[0 := {0}] &&
      1 !in GetResourceAliases(m, 0)
  {
    var e := Maps(map[], map[]);
    assert IdsOf(e, 0) == {} && ValuesOf(e, 0) == {};
    var m0 := AddMapping(e, 0, 0);
    assert m0.idToValues == map[0 := {} + {0}];
    assert {} + {0} == {0};
    var m := ForwardAsWritten(m0, 0, 1);
    assert m.valueToIds[0] == {0};
    assert Smallest({0}) == 0;
  }

  // ---------------------------------------------------------------------
  // Building the analysis of one function

  /** A function argument: its value, whether it is a resource, and its
      tf._resource_arg_unique_id attribute if it has one. */
  datatype Argument = Argument(value: Value, isResource: bool, uniqueId: Option<int>)

  /** Whether any argument carries the unique id attribute. */
  predicate HasArgUniqueIdAttrs(args: seq<Argument>)
  {
    exists i :: 0 <= i < |args| && args[i].uniqueId.Some?
  }

  /** The number of resource arguments. */
  function ResourceCount(args: seq<Argument>): (n: nat)
    ensures n <= |args|
  {
    if args == [] then 0
    else ResourceCount(args[..|args| - 1]) + (if args[|args| - 1].isResource then 1 else 0)
  }

  /** Block arguments are distinct values. */
  predicate DistinctValues(args: seq<Argument>)
  {
    forall i, j :: 0 <= i < j < |args| ==> args[i].value != args[j].value
  }

  /** Without attributes, resource argument i gets the number of resource
      arguments before it as its id: two resource arguments never share
      one. */
  lemma {:induction false} ResourceCountIncreases(args: seq<Argument>, i: nat, j: nat)
    requires i < j < |args| && args[i].isResource
    ensures ResourceCount(args[..i]) < ResourceCount(args[..j])
    decreases j - i
  {
    var p := args[..j];
    if j == i + 1 {
      assert p[..|p| - 1] == args[..i];
    } else {
      ResourceCountIncreases(args, i, j - 1);
      assert p[..|p| - 1] == args[..j - 1];
    }
  }

  /** Some argument has the unique id attribute and some resource
      argument lacks it. */
  predicate MissingUniqueId(args: seq<Argument>)
  {
    HasArgUniqueIdAttrs(args) && exists i :: 0 <= i < |args| && args[i].isResource && args[i].uniqueId.None?
  }

  /** Two resource arguments share their one id exactly when their unique
      id attributes agree. */
  ghost predicate ArgIdsFollowAttrs(args: seq<Argument>, m: Maps)
  {
    forall i, j :: 0 <= i < |args| && 0 <= j < |args| && args[i].isResource && args[j].isResource ==>
      (IdsOf(m, args[i].value) == IdsOf(m, args[j].value) <==> args[i].uniqueId == args[j].uniqueId)
  }

  /** Each resource argument's one id is its position among the resource
      arguments. */
  ghost predicate ArgIdsByPosition(args: seq<Argument>, m: Maps)
  {
    forall i :: 0 <= i < |args| && args[i].isResource ==> IdsOf(m, args[i].value) == {ResourceCount(args[..i])}
  }

  /** Without attributes, no two resource arguments share an id. */
  lemma ArgIdsDistinct(args: seq<Argument>, m: Maps, i: nat, j: nat)
    requires ArgIdsByPosition(args, m)
    requires i < j < |args| && args[i].isResource && args[j].isResource
    ensures IdsOf(m, args[i].value) !! IdsOf(m, args[j].value)
  {
    ResourceCountIncreases(args, i, j);
  }

  /** No two keys of the map share a value. */
  predicate Injective(f: map<int, int>)
  {
    forall a, b :: a in f && b in f && a != b ==> f[a] != f[b]
  }

  /** The first n resource arguments carry attributes, and each was given
      its attribute's internal id. */
  ghost predicate AttrChoice(args: seq<Argument>, n: nat, chosen: seq<int>, attrToInternal: map<int, int>)
    requires n <= |args| && |chosen| == n
  {
    forall k :: 0 <= k < n && args[k].isResource ==>
      args[k].uniqueId.Some? && args[k].uniqueId.value in attrToInternal &&
      chosen[k] == attrToInternal[args[k].uniqueId.value]
  }

  /** The attribute map is injective and its internal ids lie below the
      counter. */
  predicate AttrIdsBelow(attrToInternal: map<int, int>, nextId: int)
  {
    Injective(attrToInternal) && forall a :: a in attrToInternal ==> 0 <= attrToInternal[a] < nextId
  }

  /** A higher counter keeps the attribute map below it. */
  lemma AttrIdsGrow(attrToInternal: map<int, int>, nextId: int)
    requires AttrIdsBelow(attrToInternal, nextId)
    ensures AttrIdsBelow(attrToInternal, nextId + 1)
  {
  }

  /** A non-resource argument needs no attribute. */
  lemma AttrChoiceSkip(args: seq<Argument>, n: nat, chosen: seq<int>, attrToInternal: map<int, int>)
    requires n < |args| && |chosen| == n && !args[n].isResource
    requires AttrChoice(args, n, chosen, attrToInternal)
    ensures AttrChoice(args, n + 1, chosen + [0], attrToInternal)
  {
  }

  /** try_emplace(attribute, counter): a new attribute takes the counter,
      which no attribute has yet; a known one keeps its id. */
  lemma AttrChoiceAdd(args: seq<Argument>, n: nat, chosen: seq<int>, attrToInternal: map<int, int>, nextId: int)
    requires n < |args| && |chosen| == n && args[n].isResource && args[n].uniqueId.Some?
    requires AttrChoice(args, n, chosen, attrToInternal) && AttrIdsBelow(attrToInternal, nextId) && nextId >= 0
    ensures var a := args[n].uniqueId.value;
      var f := if a in attrToInternal then attrToInternal else attrToInternal[a := nextId];
      AttrChoice(args, n + 1, chosen + [f[a]], f) && AttrIdsBelow(f, nextId + 1)
  {
    var a := args[n].uniqueId.value;
    var f := if a in attrToInternal then attrToInternal else attrToInternal[a := nextId];
    var c := chosen + [f[a]];
    forall k | 0 <= k < n + 1 && args[k].isResource
      ensures args[k].uniqueId.Some? && args[k].uniqueId.value in f && c[k] == f[args[k].uniqueId.value]
    {
      if k < n {
        assert c[k] == chosen[k];
      }
    }
    if a !in attrToInternal {
      forall x, y | x in f && y in f && x != y
        ensures f[x] != f[y]
      {
        if x != a && y != a {
          assert f[x] == attrToInternal[x] && f[y] == attrToInternal[y];
        }
      }
      assert Injective(f);
      assert forall x :: x in f ==> 0 <= f[x] < nextId + 1;
    }
  }

  /** Through an injective map, equal chosen ids mean equal attributes. */
  lemma AttrChoiceShares(args: seq<Argument>, chosen: seq<int>, attrToInternal: map<int, int>)
    requires |chosen| == |args| && AttrChoice(args, |args|, chosen, attrToInternal)
    requires Injective(attrToInternal)
    ensures forall i, j :: 0 <= i < |args| && 0 <= j < |args| && args[i].isResource && args[j].isResource ==>
      (chosen[i] == chosen[j] <==> args[i].uniqueId == args[j].uniqueId)
  {
    forall i, j | 0 <= i < |args| && 0 <= j < |args| && args[i].isResource && args[j].isResource
      ensures chosen[i] == chosen[j] <==> args[i].uniqueId == args[j].uniqueId
    {
      var a, b := args[i].uniqueId.value, args[j].uniqueId.value;
      assert chosen[i] == attrToInternal[a] && chosen[j] == attrToInternal[b];
    }
  }

  /** After the first n arguments: exactly the resource ones among them
      have been seen, each with its chosen id alone, and no later argument
      has been seen. */
  ghost predicate ArgMaps(args: seq<Argument>, n: nat, chosen: seq<int>, m: Maps)
    requires n <= |args| && |chosen| == n
  {
    (forall k :: 0 <= k < n ==> (args[k].value in m.valueToIds <==> args[k].isResource)) &&
    (forall k :: n <= k < |args| ==> args[k].value !in m.valueToIds) &&
    (forall k :: 0 <= k < n && args[k].isResource ==> IdsOf(m, args[k].value) == {chosen[k]})
  }

  /** A non-resource argument is passed over. */
  lemma ArgMapsSkip(args: seq<Argument>, n: nat, chosen: seq<int>, m: Maps)
    requires n < |args| && |chosen| == n && ArgMaps(args, n, chosen, m) && !args[n].isResource
    ensures ArgMaps(args, n + 1, chosen + [0], m)
  {
  }

  /** A resource argument takes its id. */
  lemma ArgMapsAdd(args: seq<Argument>, n: nat, chosen: seq<int>, m: Maps, id: int)
    requires DistinctValues(args)
    requires n < |args| && |chosen| == n && ArgMaps(args, n, chosen, m) && args[n].isResource
    ensures ArgMaps(args, n + 1, chosen + [id], AddMapping(m, args[n].value, id))
  {
    var r := AddMapping(m, args[n].value, id);
    assert IdsOf(m, args[n].value) == {};
    forall k | 0 <= k < n + 1 && args[k].isResource
      ensures IdsOf(r, args[k].value) == {(chosen + [id])[k]}
    {
      if k < n {
        assert args[k].value != args[n].value;
      }
    }
    forall k | n + 1 <= k < |args|
      ensures args[k].value !in r.valueToIds
    {
      assert args[k].value != args[n].value;
    }
  }

  /** The state of the constructor's first loop after n arguments. */
  ghost predicate ArgLoop(args: seq<Argument>, n: nat, chosen: seq<int>, hasAttrs: bool,
                          attrToInternal: map<int, int>, nextId: int, m: Maps)
    requires n <= |args| && |chosen| == n
  {
    nextId == ResourceCount(args[..n]) && Inverse(m) && IdsBelow(m, nextId) &&
    ArgMaps(args, n, chosen, m) && AttrIdsBelow(attrToInternal, nextId) &&
    (hasAttrs <==> HasArgUniqueIdAttrs(args)) &&
    (hasAttrs ==> AttrChoice(args, n, chosen, attrToInternal)) &&
    (!hasAttrs ==> forall k :: 0 <= k < n && args[k].isResource ==> chosen[k] == ResourceCount(args[..k]))
  }

  /** A non-resource argument changes nothing. */
  lemma ArgLoopSkip(args: seq<Argument>, n: nat, chosen: seq<int>, hasAttrs: bool,
                    attrToInternal: map<int, int>, nextId: int, m: Maps)
    requires n < |args| && |chosen| == n && !args[n].isResource
    requires ArgLoop(args, n, chosen, hasAttrs, attrToInternal, nextId, m)
    ensures ArgLoop(args, n + 1, chosen + [0], hasAttrs, attrToInternal, nextId, m)
  {
    assert args[..n + 1][..n] == args[..n];
    ArgMapsSkip(args, n, chosen, m);
    if hasAttrs {
      AttrChoiceSkip(args, n, chosen, attrToInternal);
    }
  }

  /** After the last argument: the loop's facts said of the whole list. */
  lemma ArgLoopDone(args: seq<Argument>, chosen: seq<int>, hasAttrs: bool,
                    attrToInternal: map<int, int>, nextId: int, m: Maps)
    requires |chosen| == |args| && ArgLoop(args, |args|, chosen, hasAttrs, attrToInternal, nextId, m)
    ensures !MissingUniqueId(args)
    ensures nextId == ResourceCount(args) && Inverse(m) && IdsBelow(m, nextId)
    ensures forall i :: 0 <= i < |args| ==> (args[i].value in m.valueToIds <==> args[i].isResource)
    ensures forall i :: 0 <= i < |args| && args[i].isResource ==> |IdsOf(m, args[i].value)| == 1
    ensures hasAttrs ==> ArgIdsFollowAttrs(args, m)
    ensures !hasAttrs ==> ArgIdsByPosition(args, m)
  {
    assert args[..|args|] == args;
    if hasAttrs {
      AttrChoiceShares(args, chosen, attrToInternal);
    }
  }

  /** Recording an id that is unknown or below the counter keeps every id
      below it. */
  lemma AddMappingBelow(m: Maps, v: Value, id: int, bound: int, nextId: int)
    requires IdsBelow(m, bound) && bound <= nextId && UnknownResourceId <= id < nextId
    ensures IdsBelow(AddMapping(m, v, id), nextId)
  {
    var r := AddMapping(m, v, id);
    forall u, j | j in IdsOf(r, u)
      ensures UnknownResourceId <= j < nextId
    {
      if u != v || j != id {
        assert j in IdsOf(m, u);
      }
    }
  }

  /** No id is below the unknown one. */
  ghost predicate IdsKnown(m: Maps)
  {
    forall v, id :: id in IdsOf(m, v) ==> UnknownResourceId <= id
  }

  lemma BelowIsKnown(m: Maps, nextId: int)
    requires IdsBelow(m, nextId)
    ensures IdsKnown(m)
  {
  }

  lemma GrowsTrans(a: Maps, b: Maps, c: Maps)
    requires Grows(a, b) && Grows(b, c)
    ensures Grows(a, c)
  {
  }

  /** A higher counter keeps the name map below it. */
  lemma NamesGrow(nameIdMap: map<string, int>, nextId: int, next: int)
    requires NamesBelow(nameIdMap, nextId) && nextId <= next
    ensures NamesBelow(nameIdMap, next)
  {
  }

  /** Forwarding copies ids already in use, so no id reaches the counter. */
  lemma ForwardBelow(m: Maps, operand: Value, result: Value, nextId: int)
    requires IdsBelow(m, nextId)
    ensures IdsBelow(Forward(m, operand, result), nextId)
  {
    var r := Forward(m, operand, result);
    forall u, j | j in IdsOf(r, u)
      ensures UnknownResourceId <= j < nextId
    {
      if u == result && j !in IdsOf(m, result) {
        assert j in IdsOf(m, operand);
      } else {
        assert j in IdsOf(m, u);
      }
    }
  }

  /** A pass-through result number of a region: the operand it forwards,
      if any. */
  type Passthrough = seq<Option<nat>>

  /** An op met by the walk over a function, with only what the analysis
      reads. The pass-through tables of While and If are GetArg of the
      body (or then and else) function's backtracking analysis. */
  datatype WalkOp =
    | VarHandleOp(resource: Value, handle: VarHandle)
    | IdentityOp(operands: seq<Value>, results: seq<Value>)
    | ReplicateOp(bodyArgs: seq<Value>)
    | WhileOp(operands: seq<Value>, results: seq<Value>, bodyPass: Passthrough)
    | IfOp(inputs: seq<Value>, results: seq<Value>, thenPass: Passthrough, elsePass: Passthrough)
    | OtherOp(results: seq<Value>)

  /** A table with an entry per result, each naming an existing operand. */
  predicate PassthroughFits(pass: Passthrough, results: nat, operands: nat)
  {
    |pass| == results && forall k :: 0 <= k < |pass| && pass[k].Some? ==> pass[k].value < operands
  }

  /** What the IR verifier guarantees of the region ops' signatures. */
  predicate OpWellFormed(op: WalkOp)
  {
    match op
    case WhileOp(operands, results, bodyPass) => PassthroughFits(bodyPass, |results|, |operands|)
    case IfOp(inputs, results, thenPass, elsePass) =>
      PassthroughFits(thenPass, |results|, |inputs|) && PassthroughFits(elsePass, |results|, |inputs|)
    case _ => true
  }

  // ---------------------------------------------------------------------
  // What one op of the walk does to the maps

  /** What the walk does for one result of an op: nothing (it is not a
      resource), a new id, the unknown id, or forward_input_to_output from
      one operand, or from two in order (the two branches of an If). */
  datatype Action = Skip | FreshId(id: int) | MarkedUnknown | ForwardFrom(first: Value, second: Option<Value>)

  /** The operands an action reads. */
  function Sources(a: Action): seq<Value>
  {
    match a
    case ForwardFrom(first, second) => if second.Some? then [first, second.value] else [first]
    case _ => []
  }

  /** The ids an action gives its result, read in the maps before the op. */
  function Given(m: Maps, a: Action): set<int>
  {
    match a
    case Skip => {}
    case FreshId(id) => {id}
    case MarkedUnknown => {UnknownResourceId}
    case ForwardFrom(first, second) => IdsOf(m, first) + (if second.Some? then IdsOf(m, second.value) else {})
  }

  /** The maps after one action on the result v. */
  function Act(m: Maps, v: Value, a: Action): Maps
  {
    match a
    case Skip => m
    case FreshId(id) => AddMapping(m, v, id)
    case MarkedUnknown => AddMapping(m, v, UnknownResourceId)
    case ForwardFrom(first, second) =>
      var once := Forward(m, first, v);
      if second.Some? then Forward(once, second.value, v) else once
  }

  /** The maps after the actions on the first n results, in order. */
  function ActAll(m: Maps, results: seq<Value>, actions: seq<Action>, n: nat): Maps
    requires n <= |results| && n <= |actions|
  {
    if n == 0 then m else Act(ActAll(m, results, actions, n - 1), results[n - 1], actions[n - 1])
  }

  /** The results among the first n that an action gives the id. */
  function Receivers(m: Maps, results: seq<Value>, actions: seq<Action>, n: nat, id: int): set<Value>
    requires n <= |results| && n <= |actions|
  {
    if n == 0 then {}
    else Receivers(m, results, actions, n - 1, id) + (if id in Given(m, actions[n - 1]) then {results[n - 1]} else {})
  }

  /** An op's results are distinct values and none of them is one of its
      operands. */
  predicate SsaResults(results: seq<Value>, actions: seq<Action>, n: nat)
    requires n <= |results| && n <= |actions|
  {
    (forall i, j :: 0 <= i < j < n ==> results[i] != results[j]) &&
    (forall k, j :: 0 <= k < n && 0 <= j < n ==> results[j] !in Sources(actions[k]))
  }

  /** An action keeps every pair already recorded. */
  lemma ActGrows(m: Maps, v: Value, a: Action)
    ensures Grows(m, Act(m, v, a))
  {
    match a
    case Skip =>
    case FreshId(id) => AddMappingKeeps(m, v, id);
    case MarkedUnknown => AddMappingKeeps(m, v, UnknownResourceId);
    case ForwardFrom(first, second) =>
      ForwardKeeps(m, first, v);
      if second.Some? {
        var once := Forward(m, first, v);
        ForwardKeeps(once, second.value, v);
        GrowsTrans(m, once, Forward(once, second.value, v));
      }
  }

  /** Later actions of an op keep every pair recorded by earlier ones. */
  lemma {:induction false} ActAllGrows(m: Maps, results: seq<Value>, actions: seq<Action>, i: nat, n: nat)
    requires i <= n <= |results| && n <= |actions|
    ensures Grows(ActAll(m, results, actions, i), ActAll(m, results, actions, n))
    decreases n - i
  {
    if i < n {
      ActAllGrows(m, results, actions, i, n - 1);
      ActGrows(ActAll(m, results, actions, n - 1), results[n - 1], actions[n - 1]);
      GrowsTrans(ActAll(m, results, actions, i), ActAll(m, results, actions, n - 1), ActAll(m, results, actions, n));
    }
  }

  /** The ids an action gives grow with the maps it reads. */
  lemma GivenGrows(m: Maps, p: Maps, a: Action)
    requires Grows(m, p)
    ensures Given(m, a) <= Given(p, a)
  {
  }

  /** An action adds at least what it gives to its result's ids, whatever
      the result. */
  lemma ActGives(m: Maps, v: Value, a: Action)
    ensures IdsOf(m, v) + Given(m, a) <= IdsOf(Act(m, v, a), v)
  {
    match a
    case ForwardFrom(first, second) =>
      if second.Some? {
        var once := Forward(m, first, v);
        ForwardKeeps(m, first, v);
        assert IdsOf(m, second.value) <= IdsOf(once, second.value);
      }
    case _ =>
  }

  /** Whether or not the op is in SSA form, every result ends up holding
      at least its ids before the op and the ids its action gives, read in
      the maps before the op. */
  lemma ActAllGives(m: Maps, results: seq<Value>, actions: seq<Action>, n: nat, k: nat)
    requires k < n <= |results| && n <= |actions|
    ensures IdsOf(m, results[k]) + Given(m, actions[k]) <= IdsOf(ActAll(m, results, actions, n), results[k])
  {
    var p := ActAll(m, results, actions, k);
    ActAllGrows(m, results, actions, 0, k);
    GivenGrows(m, p, actions[k]);
    assert IdsOf(m, results[k]) <= IdsOf(p, results[k]);
    ActGives(p, results[k], actions[k]);
    ActAllGrows(m, results, actions, k + 1, n);
  }

  /** One more action of an op. */
  lemma StepSkip(m: Maps, results: seq<Value>, actions: seq<Action>, k: nat, before: Maps)
    requires k < |results| && k < |actions| && actions[k] == Skip
    requires before == ActAll(m, results, actions, k)
    ensures before == ActAll(m, results, actions, k + 1)
  {
  }

  lemma StepMapping(m: Maps, results: seq<Value>, actions: seq<Action>, k: nat, before: Maps, id: int, after: Maps)
    requires k < |results| && k < |actions|
    requires actions[k] == FreshId(id) || (actions[k] == MarkedUnknown && id == UnknownResourceId)
    requires before == ActAll(m, results, actions, k) && after == AddMapping(before, results[k], id)
    ensures after == ActAll(m, results, actions, k + 1)
  {
  }

  lemma StepForward(m: Maps, results: seq<Value>, actions: seq<Action>, k: nat, before: Maps, first: Value,
                    after: Maps)
    requires k < |results| && k < |actions| && actions[k] == ForwardFrom(first, None)
    requires before == ActAll(m, results, actions, k) && after == Forward(before, first, results[k])
    ensures after == ActAll(m, results, actions, k + 1)
  {
  }

  lemma StepForwardTwo(m: Maps, results: seq<Value>, actions: seq<Action>, k: nat, before: Maps,
                       first: Value, second: Value, middle: Maps, after: Maps)
    requires k < |results| && k < |actions| && actions[k] == ForwardFrom(first, Some(second))
    requires before == ActAll(m, results, actions, k)
    requires middle == Forward(before, first, results[k]) && after == Forward(middle, second, results[k])
    ensures after == ActAll(m, results, actions, k + 1)
  {
  }

  /** One action changes only its own result's ids, which gain what the
      action gives, and adds that result to the values of those ids. */
  lemma ActEffect(m: Maps, v: Value, a: Action)
    requires v !in Sources(a)
    ensures var r := Act(m, v, a);
      IdsOf(r, v) == IdsOf(m, v) + Given(m, a) &&
      (forall u :: u != v ==> IdsOf(r, u) == IdsOf(m, u)) &&
      (forall id :: ValuesOf(r, id) == ValuesOf(m, id) + (if id in Given(m, a) then {v} else {}))
  {
    forall u
      ensures IdsOf(Act(m, v, a), u) == IdsOf(m, u) + (if u == v then Given(m, a) else {})
    {
      ActIdsOf(m, v, a, u);
    }
    forall id
      ensures ValuesOf(Act(m, v, a), id) == ValuesOf(m, id) + (if id in Given(m, a) then {v} else {})
    {
      ActValuesOf(m, v, a, id);
    }
  }

  lemma ActIdsOf(m: Maps, v: Value, a: Action, u: Value)
    requires v !in Sources(a)
    ensures IdsOf(Act(m, v, a), u) == IdsOf(m, u) + (if u == v then Given(m, a) else {})
  {
    match a
    case ForwardFrom(first, second) =>
      var once := Forward(m, first, v);
      if second.Some? {
        assert v != second.value;
        assert IdsOf(once, second.value) == IdsOf(m, second.value);
      }
    case _ =>
  }

  lemma ActValuesOf(m: Maps, v: Value, a: Action, id: int)
    requires v !in Sources(a)
    ensures ValuesOf(Act(m, v, a), id) == ValuesOf(m, id) + (if id in Given(m, a) then {v} else {})
  {
    match a
    case ForwardFrom(first, second) =>
      var once := Forward(m, first, v);
      assert ValuesOf(once, id) == ValuesOf(m, id) + (if id in IdsOf(m, first) then {v} else {});
      if second.Some? {
        var twice := Forward(once, second.value, v);
        assert v != second.value;
        assert IdsOf(once, second.value) == IdsOf(m, second.value);
        assert ValuesOf(twice, id) == ValuesOf(once, id) + (if id in IdsOf(m, second.value) then {v} else {});
      }
    case FreshId(newId) =>
      assert ValuesOf(Act(m, v, a), id) == ValuesOf(AddMapping(m, v, newId), id);
    case MarkedUnknown =>
      assert ValuesOf(Act(m, v, a), id) == ValuesOf(AddMapping(m, v, UnknownResourceId), id);
    case Skip =>
  }

  /** What an action gives depends only on the ids of its sources. */
  lemma GivenAlike(m: Maps, p: Maps, a: Action)
    requires forall s :: s in Sources(a) ==> IdsOf(p, s) == IdsOf(m, s)
    ensures Given(p, a) == Given(m, a)
  {
    if a.ForwardFrom? {
      assert a.first in Sources(a);
      if a.second.Some? {
        assert a.second.value in Sources(a);
      }
    }
  }

  /** The walk's effect on one op, as a function of the maps before it:
      each result gains exactly the ids its action gives (read in the maps
      before the op), each id gains exactly the results given it, and every
      other value keeps its ids. */
  lemma ActAllEffect(m: Maps, results: seq<Value>, actions: seq<Action>, n: nat)
    requires n <= |results| && n <= |actions|
    requires SsaResults(results, actions, n)
    ensures var r := ActAll(m, results, actions, n);
      (forall k :: 0 <= k < n ==> IdsOf(r, results[k]) == IdsOf(m, results[k]) + Given(m, actions[k])) &&
      (forall v :: v !in results[..n] ==> IdsOf(r, v) == IdsOf(m, v)) &&
      (forall id :: ValuesOf(r, id) == ValuesOf(m, id) + Receivers(m, results, actions, n, id))
  {
    ActAllOthers(m, results, actions, n);
    ActAllIds(m, results, actions, n);
    ActAllValues(m, results, actions, n);
  }

  lemma ActAllOthers(m: Maps, results: seq<Value>, actions: seq<Action>, n: nat)
    requires n <= |results| && n <= |actions|
    requires SsaResults(results, actions, n)
    ensures forall v :: v !in results[..n] ==> IdsOf(ActAll(m, results, actions, n), v) == IdsOf(m, v)
  {
    forall v | v !in results[..n]
      ensures IdsOf(ActAll(m, results, actions, n), v) == IdsOf(m, v)
    {
      forall j | 0 <= j < n
        ensures results[j] != v
      {
        assert results[j] in results[..n];
      }
      ActAllOther(m, results, actions, n, v);
    }
  }

  lemma {:induction false} ActAllOther(m: Maps, results: seq<Value>, actions: seq<Action>, n: nat, v: Value)
    requires n <= |results| && n <= |actions|
    requires SsaResults(results, actions, n)
    requires forall j :: 0 <= j < n ==> results[j] != v
    ensures IdsOf(ActAll(m, results, actions, n), v) == IdsOf(m, v)
  {
    if n > 0 {
      assert SsaResults(results, actions, n - 1);
      ActAllOther(m, results, actions, n - 1, v);
      assert results[n - 1] !in Sources(actions[n - 1]);
      ActIdsOf(ActAll(m, results, actions, n - 1), results[n - 1], actions[n - 1], v);
    }
  }

  /** Before the k-th action of an op, the sources it reads still have the
      ids they had before the op. */
  lemma SourcesUntouched(m: Maps, results: seq<Value>, actions: seq<Action>, n: nat)
    requires 0 < n <= |results| && n <= |actions|
    requires SsaResults(results, actions, n)
    ensures Given(ActAll(m, results, actions, n - 1), actions[n - 1]) == Given(m, actions[n - 1])
  {
    var p := ActAll(m, results, actions, n - 1);
    assert SsaResults(results, actions, n - 1);
    forall s | s in Sources(actions[n - 1])
      ensures IdsOf(p, s) == IdsOf(m, s)
    {
      ActAllOther(m, results, actions, n - 1, s);
    }
    GivenAlike(m, p, actions[n - 1]);
  }

  lemma ActAllIds(m: Maps, results: seq<Value>, actions: seq<Action>, n: nat)
    requires n <= |results| && n <= |actions|
    requires SsaResults(results, actions, n)
    ensures forall k :: 0 <= k < n ==>
      IdsOf(ActAll(m, results, actions, n), results[k]) == IdsOf(m, results[k]) + Given(m, actions[k])
  {
    forall k | 0 <= k < n
      ensures IdsOf(ActAll(m, results, actions, n), results[k]) == IdsOf(m, results[k]) + Given(m, actions[k])
    {
      ActAllIdsAt(m, results, actions, n, k);
    }
  }

  lemma {:induction false} ActAllIdsAt(m: Maps, results: seq<Value>, actions: seq<Action>, n: nat, k: nat)
    requires k < n <= |results| && n <= |actions|
    requires SsaResults(results, actions, n)
    ensures IdsOf(ActAll(m, results, actions, n), results[k]) == IdsOf(m, results[k]) + Given(m, actions[k])
  {
    var p := ActAll(m, results, actions, n - 1);
    if k == n - 1 {
      assert SsaResults(results, actions, n - 1);
      ActAllOther(m, results, actions, n - 1, results[k]);
      SourcesUntouched(m, results, actions, n);
      ActIdsOf(p, results[k], actions[k], results[k]);
    } else {
      assert SsaResults(results, actions, n - 1);
      ActAllIdsAt(m, results, actions, n - 1, k);
      assert results[n - 1] !in Sources(actions[n - 1]) && results[k] != results[n - 1];
      ActIdsOf(p, results[n - 1], actions[n - 1], results[k]);
    }
  }

  lemma ActAllValues(m: Maps, results: seq<Value>, actions: seq<Action>, n: nat)
    requires n <= |results| && n <= |actions|
    requires SsaResults(results, actions, n)
    ensures forall id ::
      ValuesOf(ActAll(m, results, actions, n), id) == ValuesOf(m, id) + Receivers(m, results, actions, n, id)
  {
    forall id
      ensures ValuesOf(ActAll(m, results, actions, n), id) == ValuesOf(m, id) + Receivers(m, results, actions, n, id)
    {
      ActAllValuesOf(m, results, actions, n, id);
    }
  }

  lemma {:induction false} ActAllValuesOf(m: Maps, results: seq<Value>, actions: seq<Action>, n: nat, id: int)
    requires n <= |results| && n <= |actions|
    requires SsaResults(results, actions, n)
    ensures ValuesOf(ActAll(m, results, actions, n), id) == ValuesOf(m, id) + Receivers(m, results, actions, n, id)
  {
    if n > 0 {
      var p := ActAll(m, results, actions, n - 1);
      var v, a := results[n - 1], actions[n - 1];
      assert SsaResults(results, actions, n - 1);
      assert v !in Sources(a);
      ActAllValuesOf(m, results, actions, n - 1, id);
      SourcesUntouched(m, results, actions, n);
      ActValuesOf(p, v, a, id);
    }
  }

  /** A value receives the id exactly when it is one of the first n
      results and its action gives the id. */
  lemma {:induction false} ReceiversMeaning(m: Maps, results: seq<Value>, actions: seq<Action>, n: nat, id: int)
    requires n <= |results| && n <= |actions|
    ensures forall u :: u in Receivers(m, results, actions, n, id) <==>
      exists k :: 0 <= k < n && id in Given(m, actions[k]) && results[k] == u
  {
    if n > 0 {
      ReceiversMeaning(m, results, actions, n - 1, id);
      forall u | exists k :: 0 <= k < n && id in Given(m, actions[k]) && results[k] == u
        ensures u in Receivers(m, results, actions, n, id)
      {
        var k :| 0 <= k < n && id in Given(m, actions[k]) && results[k] == u;
        if k < n - 1 {
          assert u in Receivers(m, results, actions, n - 1, id);
        }
      }
    }
  }

  /** The number of values of vs that are resources. */
  function CountIn(vs: seq<Value>, resources: set<Value>): nat
  {
    if vs == [] then 0 else CountIn(vs[..|vs| - 1], resources) + (if vs[|vs| - 1] in resources then 1 else 0)
  }

  lemma {:induction false} CountInPrefix(vs: seq<Value>, resources: set<Value>, i: nat, j: nat)
    requires i <= j <= |vs|
    ensures CountIn(vs[..i], resources) <= CountIn(vs[..j], resources)
    decreases j - i
  {
    if i < j {
      CountInPrefix(vs, resources, i, j - 1);
      assert vs[..j][..j - 1] == vs[..j - 1];
    }
  }

  /** Marking every resource result unknown. */
  function MarkActions(results: seq<Value>, resources: set<Value>): (r: seq<Action>)
    ensures |r| == |results|
  {
    seq(|results|, k requires 0 <= k < |results| => if results[k] in resources then MarkedUnknown else Skip)
  }

  /** Identity and IdentityN: result k takes the ids of operand k. */
  function IdentityActions(operands: seq<Value>, results: seq<Value>, resources: set<Value>): (r: seq<Action>)
    ensures |r| == |results|
  {
    seq(|results|, k requires 0 <= k < |results| =>
      if k < |operands| && results[k] in resources then ForwardFrom(operands[k], None) else Skip)
  }

  /** Replicate: the k-th body argument, when it is a resource, takes the
      counter advanced by the resource arguments before it. */
  function ReplicateActions(bodyArgs: seq<Value>, resources: set<Value>, nextId: int): (r: seq<Action>)
    ensures |r| == |bodyArgs|
  {
    seq(|bodyArgs|, k requires 0 <= k < |bodyArgs| =>
      if bodyArgs[k] in resources then FreshId(nextId + CountIn(bodyArgs[..k], resources)) else Skip)
  }

  /** While: a passed-through result takes the matching operand's ids, any
      other resource result is unknown. */
  function WhileActions(operands: seq<Value>, results: seq<Value>, bodyPass: Passthrough,
                        resources: set<Value>): (r: seq<Action>)
    requires PassthroughFits(bodyPass, |results|, |operands|)
    ensures |r| == |results|
  {
    seq(|results|, k requires 0 <= k < |results| =>
      if results[k] !in resources then Skip
      else if bodyPass[k].Some? then ForwardFrom(operands[bodyPass[k].value], None)
      else MarkedUnknown)
  }

  /** If: a result passed through by both branches takes the ids of the
      then-input and then those of the else-input, any other resource
      result is unknown. */
  function IfActions(inputs: seq<Value>, results: seq<Value>, thenPass: Passthrough, elsePass: Passthrough,
                     resources: set<Value>): (r: seq<Action>)
    requires PassthroughFits(thenPass, |results|, |inputs|) && PassthroughFits(elsePass, |results|, |inputs|)
    ensures |r| == |results|
  {
    seq(|results|, k requires 0 <= k < |results| =>
      if results[k] !in resources then Skip
      else if thenPass[k].Some? && elsePass[k].Some? then
        ForwardFrom(inputs[thenPass[k].value], Some(inputs[elsePass[k].value]))
      else MarkedUnknown)
  }

  /** Unknown ops: every resource result ends up unknown. */
  lemma MarkActionsGive(m: Maps, results: seq<Value>, resources: set<Value>)
    ensures var r := ActAll(m, results, MarkActions(results, resources), |results|);
      forall k :: 0 <= k < |results| && results[k] in resources ==> UnknownResourceId in IdsOf(r, results[k])
  {
    forall k | 0 <= k < |results| && results[k] in resources
      ensures UnknownResourceId in IdsOf(ActAll(m, results, MarkActions(results, resources), |results|), results[k])
    {
      ActAllGives(m, results, MarkActions(results, resources), |results|, k);
    }
  }

  /** Identity: every resource result with an operand of its number ends up
      holding that operand's ids. */
  lemma IdentityActionsGive(m: Maps, operands: seq<Value>, results: seq<Value>, resources: set<Value>)
    ensures var r := ActAll(m, results, IdentityActions(operands, results, resources), Min(|operands|, |results|));
      forall k :: 0 <= k < |operands| && k < |results| && results[k] in resources ==>
        IdsOf(m, operands[k]) <= IdsOf(r, results[k])
  {
    var acts := IdentityActions(operands, results, resources);
    forall k | 0 <= k < |operands| && k < |results| && results[k] in resources
      ensures IdsOf(m, operands[k]) <= IdsOf(ActAll(m, results, acts, Min(|operands|, |results|)), results[k])
    {
      ActAllGives(m, results, acts, Min(|operands|, |results|), k);
    }
  }

  /** While: a passed-through resource result ends up holding its operand's
      ids, any other resource result ends up unknown. */
  lemma WhileActionsGive(m: Maps, operands: seq<Value>, results: seq<Value>, bodyPass: Passthrough,
                         resources: set<Value>)
    requires PassthroughFits(bodyPass, |results|, |operands|)
    ensures var r := ActAll(m, results, WhileActions(operands, results, bodyPass, resources), |results|);
      forall k :: 0 <= k < |results| && results[k] in resources ==>
        (bodyPass[k].Some? ==> IdsOf(m, operands[bodyPass[k].value]) <= IdsOf(r, results[k])) &&
        (bodyPass[k].None? ==> UnknownResourceId in IdsOf(r, results[k]))
  {
    var acts := WhileActions(operands, results, bodyPass, resources);
    forall k | 0 <= k < |results| && results[k] in resources
      ensures bodyPass[k].Some? ==> IdsOf(m, operands[bodyPass[k].value]) <= IdsOf(ActAll(m, results, acts, |results|), results[k])
      ensures bodyPass[k].None? ==> UnknownResourceId in IdsOf(ActAll(m, results, acts, |results|), results[k])
    {
      ActAllGives(m, results, acts, |results|, k);
    }
  }

  /** If: a resource result passed through by both branches ends up holding
      the ids of both inputs, any other resource result ends up unknown. */
  lemma IfActionsGive(m: Maps, inputs: seq<Value>, results: seq<Value>, thenPass: Passthrough, elsePass: Passthrough,
                      resources: set<Value>)
    requires PassthroughFits(thenPass, |results|, |inputs|) && PassthroughFits(elsePass, |results|, |inputs|)
    ensures var r := ActAll(m, results, IfActions(inputs, results, thenPass, elsePass, resources), |results|);
      forall k :: 0 <= k < |results| && results[k] in resources ==>
        (thenPass[k].Some? && elsePass[k].Some? ==>
          IdsOf(m, inputs[thenPass[k].value]) + IdsOf(m, inputs[elsePass[k].value]) <= IdsOf(r, results[k])) &&
        (thenPass[k].None? || elsePass[k].None? ==> UnknownResourceId in IdsOf(r, results[k]))
  {
    var acts := IfActions(inputs, results, thenPass, elsePass, resources);
    var r := ActAll(m, results, acts, |results|);
    forall k | 0 <= k < |results| && results[k] in resources
      ensures thenPass[k].Some? && elsePass[k].Some? ==>
        IdsOf(m, inputs[thenPass[k].value]) + IdsOf(m, inputs[elsePass[k].value]) <= IdsOf(r, results[k])
      ensures thenPass[k].None? || elsePass[k].None? ==> UnknownResourceId in IdsOf(r, results[k])
    {
      ActAllGives(m, results, acts, |results|, k);
    }
  }

  /** Replicate: every resource body argument ends up holding the id it
      was handed. */
  lemma ReplicateActionsGive(m: Maps, bodyArgs: seq<Value>, resources: set<Value>, nextId: int)
    ensures var r := ActAll(m, bodyArgs, ReplicateActions(bodyArgs, resources, nextId), |bodyArgs|);
      forall k :: 0 <= k < |bodyArgs| && bodyArgs[k] in resources ==>
        nextId + CountIn(bodyArgs[..k], resources) in IdsOf(r, bodyArgs[k])
  {
    var acts := ReplicateActions(bodyArgs, resources, nextId);
    forall k | 0 <= k < |bodyArgs| && bodyArgs[k] in resources
      ensures nextId + CountIn(bodyArgs[..k], resources) in IdsOf(ActAll(m, bodyArgs, acts, |bodyArgs|), bodyArgs[k])
    {
      ActAllGives(m, bodyArgs, acts, |bodyArgs|, k);
    }
  }

  /** The ids a replicate op hands out: one per resource body argument, all
      distinct, from the counter up to the counter plus their number. */
  lemma ReplicateFresh(bodyArgs: seq<Value>, resources: set<Value>, nextId: int)
    ensures var acts := ReplicateActions(bodyArgs, resources, nextId);
      (forall k :: 0 <= k < |bodyArgs| ==> (acts[k].FreshId? <==> bodyArgs[k] in resources)) &&
      (forall k :: 0 <= k < |bodyArgs| && acts[k].FreshId? ==>
        nextId <= acts[k].id < nextId + CountIn(bodyArgs, resources)) &&
      (forall i, j :: 0 <= i < j < |bodyArgs| && acts[i].FreshId? && acts[j].FreshId? ==>
        acts[i].id < acts[j].id)
  {
    var acts := ReplicateActions(bodyArgs, resources, nextId);
    forall k | 0 <= k < |bodyArgs| && acts[k].FreshId?
      ensures nextId <= acts[k].id < nextId + CountIn(bodyArgs, resources)
    {
      CountInPrefix(bodyArgs, resources, k + 1, |bodyArgs|);
      assert bodyArgs[..k + 1][..k] == bodyArgs[..k];
      assert bodyArgs[..|bodyArgs|] == bodyArgs;
    }
    forall i, j | 0 <= i < j < |bodyArgs| && acts[i].FreshId? && acts[j].FreshId?
      ensures acts[i].id < acts[j].id
    {
      CountInPrefix(bodyArgs, resources, i + 1, j);
      assert bodyArgs[..i + 1][..i] == bodyArgs[..i];
    }
  }

  /** The resource ids of one function. */
  class ResourceAliasAnalysisInfo {
    var valueToIds: map<Value, set<int>>
    var idToValues: map<int, set<Value>>

    /** The two maps, as a value. */
    function State(): Maps
      reads this
    {
      Maps(valueToIds, idToValues)
    }

    /** An analysis with no values seen yet. */
    constructor ()
      ensures valueToIds == map[] && idToValues == map[]
    {
      valueToIds := map[];
      idToValues := map[];
    }

    /** AddValueUniqueIDMapping. */
    method AddValueUniqueIdMapping(v: Value, id: int)
      modifies this
      ensures State() == AddMapping(old(State()), v, id)
      ensures Grows(old(State()), State()) && (Inverse(old(State())) ==> Inverse(State()))
    {
      var m := State();
      AddMappingKeeps(m, v, id);
      valueToIds := valueToIds[v := IdsOf(m, v) + {id}];
      idToValues := idToValues[id := ValuesOf(m, id) + {v}];
    }

    /** forward_input_to_output: a non-resource result is skipped; a
        resource result takes the operand's ids, and the operand must have
        been seen (the assertion fails otherwise: `ok` is false). */
    method ForwardInputToOutput(operand: Value, result: Value, resources: set<Value>) returns (ok: bool)
      modifies this
      ensures result !in resources ==> ok && State() == old(State())
      ensures result in resources ==> (ok <==> operand in old(valueToIds))
      ensures result in resources && ok ==> State() == Forward(old(State()), operand, result)
      ensures !ok ==> State() == old(State())
      ensures Grows(old(State()), State()) && (Inverse(old(State())) ==> Inverse(State()))
    {
      if result !in resources {
        return true;
      }
      if operand !in valueToIds {
        return false;
      }
      ForwardKeeps(State(), operand, result);
      var m := Forward(State(), operand, result);
      valueToIds, idToValues := m.valueToIds, m.idToValues;
      return true;
    }

    /** The first part of the constructor: ids for the resource arguments.
        With unique id attributes present, arguments with equal attributes
        share an id (each resource argument still advances the counter);
        without them every resource argument gets an id of its own. An
        attribute missing from a resource argument when others have one is
        the failed assertion: `ok` is false. */
    method AddArgumentIds(args: seq<Argument>) returns (ok: bool, nextId: int)
      requires valueToIds == map[] && idToValues == map[]
      requires DistinctValues(args)
      modifies this
      ensures ok <==> !MissingUniqueId(args)
      ensures ok ==> nextId == ResourceCount(args)
      ensures ok ==> Inverse(State()) && IdsBelow(State(), nextId)
      ensures ok ==> forall i :: 0 <= i < |args| ==> (args[i].value in valueToIds <==> args[i].isResource)
      ensures ok ==> forall i :: 0 <= i < |args| && args[i].isResource ==> |IdsOf(State(), args[i].value)| == 1
      ensures ok && HasArgUniqueIdAttrs(args) ==> ArgIdsFollowAttrs(args, State())
      ensures ok && !HasArgUniqueIdAttrs(args) ==> ArgIdsByPosition(args, State())
    {
      var hasAttrs := exists i :: 0 <= i < |args| && args[i].uniqueId.Some?;
      var attrToInternal: map<int, int> := map[];
      ghost var chosen: seq<int> := [];
      nextId := 0;
      for i := 0 to |args|
        invariant |chosen| == i
        invariant ArgLoop(args, i, chosen, hasAttrs, attrToInternal, nextId, State())
      {
        if !args[i].isResource {
          ArgLoopSkip(args, i, chosen, hasAttrs, attrToInternal, nextId, State());
          chosen := chosen + [0];
          continue;
        }
        ok, attrToInternal, nextId, chosen := AddResourceArgument(args, i, hasAttrs, attrToInternal, nextId, chosen);
        if !ok {
          assert args[i].isResource && args[i].uniqueId.None?;
          return;
        }
      }
      ArgLoopDone(args, chosen, hasAttrs, attrToInternal, nextId, State());
      ok := true;
    }

    /** One resource argument of the constructor's first loop. */
    method AddResourceArgument(args: seq<Argument>, i: nat, hasAttrs: bool, attrToInternal: map<int, int>,
                               nextId: int, ghost chosen: seq<int>)
      returns (ok: bool, attrToInternal': map<int, int>, nextId': int, ghost chosen': seq<int>)
      requires DistinctValues(args) && i < |args| && |chosen| == i && args[i].isResource
      requires ArgLoop(args, i, chosen, hasAttrs, attrToInternal, nextId, State())
      modifies this
      ensures !ok <==> hasAttrs && args[i].uniqueId.None?
      ensures ok ==> |chosen'| == i + 1 && ArgLoop(args, i + 1, chosen', hasAttrs, attrToInternal', nextId', State())
    {
      assert args[..i + 1][..i] == args[..i];
      var arg := args[i];
      attrToInternal' := attrToInternal;
      var id;
      if hasAttrs {
        if arg.uniqueId.None? {
          return false, attrToInternal, nextId, chosen;
        }
        var attr := arg.uniqueId.value;
        AttrChoiceAdd(args, i, chosen, attrToInternal, nextId);
        if attr !in attrToInternal {
          attrToInternal' := attrToInternal[attr := nextId];
        }
        id := attrToInternal'[attr];
      } else {
        id := nextId;
        AttrIdsGrow(attrToInternal, nextId);
      }
      ghost var before := State();
      nextId' := nextId + 1;
      AddValueUniqueIdMapping(arg.value, id);
      AddMappingBelow(before, arg.value, id, nextId, nextId');
      ArgMapsAdd(args, i, chosen, before, id);
      chosen' := chosen + [id];
      ok := true;
    }

    /** The walk's default: every resource result of an op it does not
        know gets the unknown id. */
    method MarkUnknown(results: seq<Value>, resources: set<Value>, ghost bound: int)
      requires Inverse(State()) && IdsBelow(State(), bound) && bound >= 0
      modifies this
      ensures Inverse(State()) && IdsBelow(State(), bound) && Grows(old(State()), State())
      ensures forall k :: 0 <= k < |results| && results[k] in resources ==>
        UnknownResourceId in IdsOf(State(), results[k])
      ensures State() == ActAll(old(State()), results, MarkActions(results, resources), |results|)
    {
      ghost var acts := MarkActions(results, resources);
      for k := 0 to |results|
        invariant Inverse(State()) && IdsBelow(State(), bound) && Grows(old(State()), State())
        invariant State() == ActAll(old(State()), results, acts, k)
      {
        ghost var before := State();
        if results[k] in resources {
          AddValueUniqueIdMapping(results[k], UnknownResourceId);
          AddMappingBelow(before, results[k], UnknownResourceId, bound, bound);
          GrowsTrans(old(State()), before, State());
          StepMapping(old(State()), results, acts, k, before, UnknownResourceId, State());
        } else {
          StepSkip(old(State()), results, acts, k, before);
        }
      }
      MarkActionsGive(old(State()), results, resources);
    }

    /** forward_input_to_output with the walk's facts kept: on success the
        result holds every id the operand had before. */
    method ForwardKeeping(operand: Value, result: Value, resources: set<Value>, ghost bound: int)
      returns (ok: bool)
      requires Inverse(State()) && IdsBelow(State(), bound)
      modifies this
      ensures Inverse(State()) && IdsBelow(State(), bound) && Grows(old(State()), State())
      ensures !ok ==> result in resources && operand !in old(valueToIds)
      ensures ok && result in resources ==> IdsOf(old(State()), operand) <= IdsOf(State(), result)
      ensures result !in resources ==> ok && State() == old(State())
      ensures result in resources ==> (ok <==> operand in old(valueToIds))
      ensures ok && result in resources ==> State() == Forward(old(State()), operand, result)
    {
      ghost var before := State();
      ok := ForwardInputToOutput(operand, result, resources);
      if ok && result in resources {
        ForwardBelow(before, operand, result, bound);
      }
    }

    /** Identity and IdentityN: each operand is forwarded to the result of
        the same number. */
    method VisitIdentity(operands: seq<Value>, results: seq<Value>, resources: set<Value>, ghost bound: int)
      returns (ok: bool)
      requires Inverse(State()) && IdsBelow(State(), bound)
      modifies this
      ensures Inverse(State()) && IdsBelow(State(), bound) && Grows(old(State()), State())
      ensures ok ==> forall k :: 0 <= k < |operands| && k < |results| && results[k] in resources ==>
        IdsOf(old(State()), operands[k]) <= IdsOf(State(), results[k])
      ensures !ok ==> exists k :: (0 <= k < |operands| && k < |results| && results[k] in resources &&
                                   operands[k] !in old(valueToIds))
      ensures ok ==> State() == ActAll(old(State()), results, IdentityActions(operands, results, resources),
                                       Min(|operands|, |results|))
    {
      ghost var acts := IdentityActions(operands, results, resources);
      var n := Min(|operands|, |results|);
      for k := 0 to n
        invariant Inverse(State()) && IdsBelow(State(), bound) && Grows(old(State()), State())
        invariant State() == ActAll(old(State()), results, acts, k)
      {
        ghost var before := State();
        ok := ForwardKeeping(operands[k], results[k], resources, bound);
        GrowsTrans(old(State()), before, State());
        if !ok {
          assert results[k] in resources && operands[k] !in before.valueToIds;
          return;
        }
        if results[k] in resources {
          StepForward(old(State()), results, acts, k, before, operands[k], State());
        } else {
          StepSkip(old(State()), results, acts, k, before);
        }
      }
      IdentityActionsGive(old(State()), operands, results, resources);
      ok := true;
    }

    /** The resource arguments of a replicate op's body are new resources:
        each gets the next id. */
    method VisitReplicate(bodyArgs: seq<Value>, resources: set<Value>, nextId: int) returns (next: int)
      requires Inverse(State()) && IdsBelow(State(), nextId) && nextId >= 0
      modifies this
      ensures Inverse(State()) && IdsBelow(State(), next) && Grows(old(State()), State())
      ensures next >= nextId
      ensures forall k :: 0 <= k < |bodyArgs| && bodyArgs[k] in resources ==>
        exists id :: nextId <= id < next && id in IdsOf(State(), bodyArgs[k])
      ensures next == nextId + CountIn(bodyArgs, resources)
      ensures State() == ActAll(old(State()), bodyArgs, ReplicateActions(bodyArgs, resources, nextId), |bodyArgs|)
    {
      ghost var acts := ReplicateActions(bodyArgs, resources, nextId);
      next := nextId;
      for k := 0 to |bodyArgs|
        invariant next == nextId + CountIn(bodyArgs[..k], resources) && next >= nextId
        invariant State() == ActAll(old(State()), bodyArgs, acts, k)
        invariant Inverse(State()) && IdsBelow(State(), next) && Grows(old(State()), State())
      {
        ghost var before := State();
        if bodyArgs[k] in resources {
          AddValueUniqueIdMapping(bodyArgs[k], next);
          AddMappingBelow(before, bodyArgs[k], next, next, next + 1);
          GrowsTrans(old(State()), before, State());
          StepMapping(old(State()), bodyArgs, acts, k, before, next, State());
          next := next + 1;
        } else {
          StepSkip(old(State()), bodyArgs, acts, k, before);
        }
        assert bodyArgs[..k + 1][..k] == bodyArgs[..k];
      }
      assert bodyArgs[..|bodyArgs|] == bodyArgs;
      ReplicateActionsGive(old(State()), bodyArgs, resources, nextId);
      ReplicateFresh(bodyArgs, resources, nextId);
      forall k | 0 <= k < |bodyArgs| && bodyArgs[k] in resources
        ensures exists id :: nextId <= id < next && id in IdsOf(State(), bodyArgs[k])
      {
        assert acts[k].id == nextId + CountIn(bodyArgs[..k], resources);
      }
    }

    /** While: a resource result that the body passes through from an
        argument takes the ids of the matching operand; any other resource
        result is unknown. */
    method VisitWhile(operands: seq<Value>, results: seq<Value>, bodyPass: Passthrough,
                      resources: set<Value>, ghost bound: int) returns (ok: bool)
      requires PassthroughFits(bodyPass, |results|, |operands|)
      requires Inverse(State()) && IdsBelow(State(), bound) && bound >= 0
      modifies this
      ensures Inverse(State()) && IdsBelow(State(), bound) && Grows(old(State()), State())
      ensures ok ==> forall k :: 0 <= k < |results| && results[k] in resources ==>
        (bodyPass[k].Some? ==> IdsOf(old(State()), operands[bodyPass[k].value]) <= IdsOf(State(), results[k])) &&
        (bodyPass[k].None? ==> UnknownResourceId in IdsOf(State(), results[k]))
      ensures ok ==> State() == ActAll(old(State()), results, WhileActions(operands, results, bodyPass, resources),
                                       |results|)
    {
      ghost var acts := WhileActions(operands, results, bodyPass, resources);
      for k := 0 to |results|
        invariant Inverse(State()) && IdsBelow(State(), bound) && Grows(old(State()), State())
        invariant State() == ActAll(old(State()), results, acts, k)
      {
        ghost var before := State();
        if results[k] !in resources {
          StepSkip(old(State()), results, acts, k, before);
          continue;
        }
        if bodyPass[k].Some? {
          ok := ForwardKeeping(operands[bodyPass[k].value], results[k], resources, bound);
          GrowsTrans(old(State()), before, State());
          if !ok {
            return;
          }
          StepForward(old(State()), results, acts, k, before, operands[bodyPass[k].value], State());
        } else {
          AddValueUniqueIdMapping(results[k], UnknownResourceId);
          AddMappingBelow(before, results[k], UnknownResourceId, bound, bound);
          GrowsTrans(old(State()), before, State());
          StepMapping(old(State()), results, acts, k, before, UnknownResourceId, State());
        }
      }
      WhileActionsGive(old(State()), operands, results, bodyPass, resources);
      ok := true;
    }

    /** If: a resource result that both branches pass through from an
        argument takes the ids of both matching inputs; any other resource
        result is unknown. */
    method VisitIf(inputs: seq<Value>, results: seq<Value>, thenPass: Passthrough, elsePass: Passthrough,
                   resources: set<Value>, ghost bound: int) returns (ok: bool)
      requires PassthroughFits(thenPass, |results|, |inputs|) && PassthroughFits(elsePass, |results|, |inputs|)
      requires Inverse(State()) && IdsBelow(State(), bound) && bound >= 0
      modifies this
      ensures Inverse(State()) && IdsBelow(State(), bound) && Grows(old(State()), State())
      ensures ok ==> forall k :: 0 <= k < |results| && results[k] in resources ==>
        (thenPass[k].Some? && elsePass[k].Some? ==>
          IdsOf(old(State()), inputs[thenPass[k].value]) + IdsOf(old(State()), inputs[elsePass[k].value])
            <= IdsOf(State(), results[k])) &&
        (thenPass[k].None? || elsePass[k].None? ==> UnknownResourceId in IdsOf(State(), results[k]))
      ensures ok ==> State() == ActAll(old(State()), results,
                                       IfActions(inputs, results, thenPass, elsePass, resources), |results|)
    {
      ghost var acts := IfActions(inputs, results, thenPass, elsePass, resources);
      for k := 0 to |results|
        invariant Inverse(State()) && IdsBelow(State(), bound) && Grows(old(State()), State())
        invariant State() == ActAll(old(State()), results, acts, k)
      {
        ghost var before := State();
        if results[k] !in resources {
          StepSkip(old(State()), results, acts, k, before);
          continue;
        }
        if thenPass[k].Some? && elsePass[k].Some? {
          ok := ForwardKeeping(inputs[thenPass[k].value], results[k], resources, bound);
          ghost var middle := State();
          GrowsTrans(old(State()), before, middle);
          if !ok {
            return;
          }
          ok := ForwardKeeping(inputs[elsePass[k].value], results[k], resources, bound);
          GrowsTrans(old(State()), middle, State());
          if !ok {
            return;
          }
          StepForwardTwo(old(State()), results, acts, k, before, inputs[thenPass[k].value],
                         inputs[elsePass[k].value], middle, State());
        } else {
          AddValueUniqueIdMapping(results[k], UnknownResourceId);
          AddMappingBelow(before, results[k], UnknownResourceId, bound, bound);
          GrowsTrans(old(State()), before, State());
          StepMapping(old(State()), results, acts, k, before, UnknownResourceId, State());
        }
      }
      IfActionsGive(old(State()), inputs, results, thenPass, elsePass, resources);
      ok := true;
    }

    /** One op of the walk. Only forwarding can fail, on an operand that
        was never seen. */
    method VisitOp(op: WalkOp, resources: set<Value>, nextId: int, nameIdMap: map<string, int>)
      returns (ok: bool, next: int, nameIdMap': map<string, int>)
      requires OpWellFormed(op)
      requires Inverse(State()) && IdsBelow(State(), nextId) && NamesBelow(nameIdMap, nextId) && nextId >= 0
      modifies this
      ensures Inverse(State()) && IdsBelow(State(), next) && NamesBelow(nameIdMap', next)
      ensures next >= nextId && Grows(old(State()), State())
      ensures op.VarHandleOp? ==> (ok &&
        var r := GetOrCreateIdForVarHandle(op.handle, nextId, nameIdMap);
        next == r.nextId && nameIdMap' == r.nameIdMap && State() == AddMapping(old(State()), op.resource, r.id))
      ensures !op.VarHandleOp? ==> nameIdMap' == nameIdMap
      ensures !ok ==> op.IdentityOp? || op.WhileOp? || op.IfOp?
      ensures op.IdentityOp? && ok ==>
        State() == ActAll(old(State()), op.results, IdentityActions(op.operands, op.results, resources),
                          Min(|op.operands|, |op.results|))
      ensures op.ReplicateOp? ==>
        next == nextId + CountIn(op.bodyArgs, resources) &&
        State() == ActAll(old(State()), op.bodyArgs, ReplicateActions(op.bodyArgs, resources, nextId), |op.bodyArgs|)
      ensures op.WhileOp? && ok ==>
        State() == ActAll(old(State()), op.results, WhileActions(op.operands, op.results, op.bodyPass, resources),
                          |op.results|)
      ensures op.IfOp? && ok ==>
        State() == ActAll(old(State()), op.results,
                          IfActions(op.inputs, op.results, op.thenPass, op.elsePass, resources), |op.results|)
      ensures op.OtherOp? ==>
        ok && State() == ActAll(old(State()), op.results, MarkActions(op.results, resources), |op.results|)
    {
      next, nameIdMap', ok := nextId, nameIdMap, true;
      match op
      case VarHandleOp(resource, handle) =>
        var r := GetOrCreateIdForVarHandle(handle, nextId, nameIdMap);
        ghost var before := State();
        AddValueUniqueIdMapping(resource, r.id);
        AddMappingBelow(before, resource, r.id, nextId, r.nextId);
        next, nameIdMap' := r.nextId, r.nameIdMap;
      case IdentityOp(operands, results) =>
        ok := VisitIdentity(operands, results, resources, nextId);
      case ReplicateOp(bodyArgs) =>
        next := VisitReplicate(bodyArgs, resources, nextId);
        NamesGrow(nameIdMap, nextId, next);
      case WhileOp(operands, results, bodyPass) =>
        ok := VisitWhile(operands, results, bodyPass, resources, nextId);
      case IfOp(inputs, results, thenPass, elsePass) =>
        ok := VisitIf(inputs, results, thenPass, elsePass, resources, nextId);
      case OtherOp(results) =>
        MarkUnknown(results, resources, nextId);
    }

    /** The walk over the function's ops, in order, with the counter left
        by the arguments and an empty name map. */
    method Walk(ops: seq<WalkOp>, resources: set<Value>, nextId: int) returns (ok: bool, next: int)
      requires forall op :: op in ops ==> OpWellFormed(op)
      requires Inverse(State()) && IdsBelow(State(), nextId) && nextId >= 0
      modifies this
      ensures Inverse(State()) && IdsBelow(State(), next) && next >= nextId
      ensures Grows(old(State()), State())
    {
      var nameIdMap: map<string, int> := map[];
      next := nextId;
      for i := 0 to |ops|
        invariant Inverse(State()) && IdsBelow(State(), next) && NamesBelow(nameIdMap, next)
        invariant next >= nextId && Grows(old(State()), State())
      {
        ghost var before := State();
        ok, next, nameIdMap := VisitOp(ops[i], resources, next, nameIdMap);
        GrowsTrans(old(State()), before, State());
        if !ok {
          return;
        }
      }
      ok := true;
    }

    /** The ResourceAliasAnalysisInfo constructor: ids for the arguments,
        then the walk. It fails where one of its assertions fails. On
        success the two maps are each other's inverse and no id is below
        the unknown one, so that IsUnknownResource is membership of the
        unknown id and the aliases of a resource are the values sharing an
        id with it. */
    method Build(args: seq<Argument>, ops: seq<WalkOp>, resources: set<Value>) returns (ok: bool)
      requires valueToIds == map[] && idToValues == map[]
      requires DistinctValues(args)
      requires forall op :: op in ops ==> OpWellFormed(op)
      modifies this
      ensures MissingUniqueId(args) ==> !ok
      ensures ok ==> Inverse(State()) && IdsKnown(State())
    {
      var nextId;
      ok, nextId := AddArgumentIds(args);
      if !ok {
        return;
      }
      var next;
      ok, next := Walk(ops, resources, nextId);
      BelowIsKnown(State(), next);
    }
  }
}
