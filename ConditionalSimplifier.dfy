// ConditionalSimplifier: the decisions of the XLA pass that simplifies
// kConditional instructions (removing a conditional whose branch is known,
// dropping unused result tuple elements, merging duplicate ones and putting
// the trivial branch first), over an abstract view of the HLO graph.
module ConditionalSimplifier {
  import opened Common

  // ---------------------------------------------------------------------
  // Instructions and computations

  datatype Opcode =
    | Copy | GetTupleElement | Parameter | Tuple | AfterAll
    | Broadcast | Concatenate | DynamicSlice | DynamicUpdateSlice | Reduce
    | Reshape | Pad | Slice | Constant | Not | Select | Call
    | OtherOp(name: string)

  /** What the pass asks of an instruction: its opcode and whether it is
      elementwise. */
  datatype Instruction = Instruction(opcode: Opcode, elementwise: bool)

  /** A branch computation, as the list of its instructions. */
  type Computation = seq<Instruction>

  /** instruction_is_expensive: the data-movement opcodes are cheap, and any
      other instruction is expensive unless it is elementwise. */
  predicate IsExpensive(h: Instruction)
  {
    match h.opcode
    case Broadcast | Concatenate | DynamicSlice | DynamicUpdateSlice
       | GetTupleElement | Reduce | Reshape | Pad | Parameter | Slice | Tuple => false
    case _ => !h.elementwise
  }

  predicate AnyExpensive(b: Computation)
  {
    exists i :: 0 <= i < |b| && IsExpensive(b[i])
  }

  /** The opcodes a trivial branch may consist of. */
  predicate IsTrivialOpcode(op: Opcode)
  {
    op.Copy? || op.GetTupleElement? || op.Parameter? || op.Tuple? || op.AfterAll?
  }

  /** is_trivial: every instruction only forwards, copies or regroups
      values. */
  predicate IsTrivial(b: Computation)
  {
    forall i :: 0 <= i < |b| ==> IsTrivialOpcode(b[i].opcode)
  }

  // ---------------------------------------------------------------------
  // Conditionals and what they run

  /** Operand 0 of a conditional: a compile-time constant (of PRED or int32
      element type) or a value computed at run time. */
  datatype Selector =
    | ConstantPred(pred: bool)
    | ConstantIndex(index: int)
    | Computed(isPred: bool)

  predicate IsPred(s: Selector)
  {
    s.ConstantPred? || (s.Computed? && s.isPred)
  }

  /** The value the selector has when the conditional runs. */
  datatype SelectorValue = PredValue(pred: bool) | IndexValue(index: int)

  /** A run-time value fits a selector: a constant has its own value, and a
      computed selector has a value of its element type. */
  predicate Fits(s: Selector, v: SelectorValue)
  {
    match s
    case ConstantPred(p) => v == PredValue(p)
    case ConstantIndex(i) => v == IndexValue(i)
    case Computed(isPred) => v.PredValue? == isPred
  }

  /** The part of a conditional the pass inspects: whether its computation
      may remove it, whether it has side effects, its selector, and per
      branch the computation and the operand passed to it (operand 1+b). */
  datatype Conditional = Conditional(
    removable: bool, sideEffect: bool, selector: Selector,
    branches: seq<Computation>, operands: seq<nat>)

  /** The shape invariants of a kConditional: at least one branch, one
      operand per branch, and exactly two branches for a PRED selector. */
  predicate WellFormed(c: Conditional)
  {
    |c.branches| >= 1 && |c.operands| == |c.branches|
    && (IsPred(c.selector) ==> |c.branches| == 2)
  }

  /** The branch a conditional runs for a selector value, as the semantics of
      kConditional define it: true selects branch 0 and false branch 1, and
      an index outside [0, N) selects the last branch N-1. */
  function BranchRun(count: nat, v: SelectorValue): (r: nat)
    requires count >= 1
    requires v.PredValue? ==> count == 2
    ensures r < count
    ensures v.PredValue? ==> (r == 0 <==> v.pred)
    ensures v.IndexValue? && 0 <= v.index < count ==> r == v.index
    ensures v.IndexValue? && !(0 <= v.index < count) ==> r == count - 1
  {
    match v
    case PredValue(p) => if p then 0 else 1
    case IndexValue(i) => if 0 <= i < count then i else count - 1
  }

  /** The computation and operand the conditional runs for a selector
      value. */
  function Run(c: Conditional, v: SelectorValue): (r: (Computation, nat))
    requires WellFormed(c) && Fits(c.selector, v)
  {
    var k := BranchRun(|c.branches|, v);
    (c.branches[k], c.operands[k])
  }

  // ---------------------------------------------------------------------
  // TryRemoveConditional

  /** What TryRemoveConditional does: nothing, replace the conditional by an
      inlined call of one branch on its operand, or inline both branches of a
      PRED conditional and choose between their results with selects. */
  datatype Removal = Keep | InlineBranch(branch: nat) | SelectBetweenBranches

  /** The branch index the pass computes for a constant selector. */
  function ConstantBranchIndex(s: Selector, count: nat): (r: nat)
    requires s.ConstantPred? || s.ConstantIndex?
    requires count >= 1 && (s.ConstantPred? ==> count == 2)
  {
    if s.ConstantPred? then (if s.pred then 0 else 1)
    else if s.index < 0 || s.index >= count then count - 1
    else s.index
  }

  /** The constant branch index is the branch the conditional would run. */
  lemma ConstantBranchIndexRuns(s: Selector, count: nat)
    requires s.ConstantPred? || s.ConstantIndex?
    requires count >= 1 && (s.ConstantPred? ==> count == 2)
    ensures ConstantBranchIndex(s, count) < count
    ensures ConstantBranchIndex(s, count) ==
            BranchRun(count, if s.ConstantPred? then PredValue(s.pred) else IndexValue(s.index))
  {
  }

  function TryRemoveConditional(c: Conditional): (r: Removal)
    requires WellFormed(c)
    ensures !c.removable || c.sideEffect ==> r == Keep
    ensures c.removable && !c.sideEffect && |c.branches| == 1 ==> r == InlineBranch(0)
    ensures r.InlineBranch? ==> r.branch < |c.branches|
    ensures r.SelectBetweenBranches? ==>
              |c.branches| == 2 && c.selector == Computed(true)
              && !AnyExpensive(c.branches[0]) && !AnyExpensive(c.branches[1])
  {
    if !c.removable || c.sideEffect then Keep
    else if |c.branches| == 1 then InlineBranch(0)
    else if c.selector.ConstantPred? || c.selector.ConstantIndex? then
      ConstantBranchIndexRuns(c.selector, |c.branches|);
      InlineBranch(ConstantBranchIndex(c.selector, |c.branches|))
    else if |c.branches| != 2 || !IsPred(c.selector)
            || AnyExpensive(c.branches[0]) || AnyExpensive(c.branches[1]) then Keep
    else SelectBetweenBranches
  }

  /** The value the replacement computes: an inlined branch, or a select
      between the two inlined branches on the run-time predicate. */
  function Replacement(c: Conditional, r: Removal, v: SelectorValue): (Computation, nat)
    requires WellFormed(c) && Fits(c.selector, v) && (r.InlineBranch? ==> r.branch < |c.branches|)
    requires r.SelectBetweenBranches? ==> |c.branches| == 2 && v.PredValue?
  {
    match r
    case Keep => Run(c, v)
    case InlineBranch(b) => (c.branches[b], c.operands[b])
    case SelectBetweenBranches => if v.pred then (c.branches[0], c.operands[0])
                                  else (c.branches[1], c.operands[1])
  }

  /** Whatever TryRemoveConditional does, the replacement computes with the
      operand the conditional would have run its branch on, for every value
      the selector can have. */
  lemma TryRemovePreservesRun(c: Conditional, v: SelectorValue)
    requires WellFormed(c) && Fits(c.selector, v)
    ensures var r := TryRemoveConditional(c);
            r.SelectBetweenBranches? ==> v.PredValue?
    ensures Replacement(c, TryRemoveConditional(c), v) == Run(c, v)
  {
    var r := TryRemoveConditional(c);
    if r.InlineBranch? && |c.branches| != 1 {
      ConstantBranchIndexRuns(c.selector, |c.branches|);
    }
  }

  // ---------------------------------------------------------------------
  // TrySwapTrueFalse

  /** The guard of TrySwapTrueFalse: a live binary PRED conditional whose
      true branch is non-trivial and whose false branch is trivial. */
  function ShouldSwapTrueFalse(c: Conditional, userCount: nat, isRoot: bool): (r: bool)
    ensures r ==> |c.branches| == 2 && IsPred(c.selector)
    ensures r ==> !IsTrivial(c.branches[0]) && IsTrivial(c.branches[1])
    ensures userCount == 0 && !isRoot ==> !r
  {
    if userCount == 0 && !isRoot then false
    else if |c.branches| != 2 || !IsPred(c.selector) then false
    else !IsTrivial(c.branches[0]) && IsTrivial(c.branches[1])
  }

  /** The conditional after the swap: the predicate is negated by a new kNot
      instruction and the branches trade places with their operands. */
  function Swapped(c: Conditional): (r: Conditional)
    requires |c.branches| == 2 && |c.operands| == 2
  {
    c.(selector := Computed(true), branches := [c.branches[1], c.branches[0]],
       operands := [c.operands[1], c.operands[0]])
  }

  function Negated(v: SelectorValue): SelectorValue
    requires v.PredValue?
  {
    PredValue(!v.pred)
  }

  /** cond(p, t, f) == cond(!p, f, t): the swapped conditional, given the
      negated predicate, runs the same computation on the same operand. */
  lemma SwapPreservesRun(c: Conditional, v: SelectorValue)
    requires WellFormed(c) && IsPred(c.selector) && Fits(c.selector, v)
    ensures WellFormed(Swapped(c)) && Fits(Swapped(c).selector, Negated(v))
    ensures Run(Swapped(c), Negated(v)) == Run(c, v)
  {
  }

  /** After a swap the trivial branch comes first, so the pass never swaps
      the same conditional back. */
  lemma SwapNotRepeated(c: Conditional, userCount: nat, isRoot: bool)
    requires ShouldSwapTrueFalse(c, userCount, isRoot) && |c.operands| == 2
    ensures IsTrivial(Swapped(c).branches[0]) && !IsTrivial(Swapped(c).branches[1])
    ensures !ShouldSwapTrueFalse(Swapped(c), userCount, isRoot)
  {
  }

  // ---------------------------------------------------------------------
  // Tuple indices

  /** A user of the conditional: a get-tuple-element of some index, or an
      instruction of another kind. */
  datatype User = Gte(index: nat) | OtherUser

  /** The used-index flags: index i is used iff some user reads element i. */
  predicate UsedBy(users: seq<User>, i: nat)
  {
    Gte(i) in users
  }

  /** The used-index flags of a tuple of the given arity. */
  function UsedFlags(users: seq<User>, arity: nat): (r: seq<bool>)
    ensures |r| == arity && forall i :: 0 <= i < arity ==> (r[i] <==> UsedBy(users, i))
  {
    seq(arity, i requires 0 <= i < arity => UsedBy(users, i))
  }

  /** The number of set flags from `from` on (std::count). */
  function CountTrue(used: seq<bool>, from: nat): (r: nat)
    decreases |used| - from
  {
    if from >= |used| then 0
    else (if used[from] then 1 else 0) + CountTrue(used, from + 1)
  }

  /** The indices whose flag is set, from `from` on, in increasing order;
      new_to_old_mapping read as a list. */
  function Positions(used: seq<bool>, from: nat): (r: seq<nat>)
    ensures |r| == CountTrue(used, from)
    ensures forall k :: 0 <= k < |r| ==> from <= r[k] < |used| && used[r[k]]
    decreases |used| - from
  {
    if from >= |used| then []
    else if used[from] then [from] + Positions(used, from + 1)
    else Positions(used, from + 1)
  }

  /** Every set flag from `from` on is listed. */
  lemma {:induction false} PositionsComplete(used: seq<bool>, from: nat)
    ensures forall i :: from <= i < |used| && used[i] ==> i in Positions(used, from)
    decreases |used| - from
  {
    if from < |used| {
      PositionsComplete(used, from + 1);
    }
  }

  lemma {:induction false} PositionsIncreasing(used: seq<bool>, from: nat)
    ensures forall a, b :: 0 <= a < b < |Positions(used, from)| ==>
              Positions(used, from)[a] < Positions(used, from)[b]
    decreases |used| - from
  {
    if from < |used| {
      PositionsIncreasing(used, from + 1);
    }
  }

  /** As many set flags as indices means every flag is set. */
  lemma {:induction false} CountTrueAll(used: seq<bool>, from: nat)
    requires from <= |used|
    ensures CountTrue(used, from) <= |used| - from
    ensures CountTrue(used, from) == |used| - from <==> forall i :: from <= i < |used| ==> used[i]
    decreases |used| - from
  {
    if from < |used| {
      CountTrueAll(used, from + 1);
    }
  }

  /** Skipping an unset flag does not change the positions. */
  lemma PositionsSkip(used: seq<bool>, from: nat)
    requires from < |used| && !used[from]
    ensures Positions(used, from + 1) == Positions(used, from)
  {
  }

  /** new_to_old_mapping: new index k stands for the k-th used old index. */
  function NewToOld(used: seq<bool>): (r: map<nat, nat>)
    ensures forall k: nat :: k in r <==> k < CountTrue(used, 0)
  {
    var all := Positions(used, 0);
    map k: nat | k < |all| :: all[k]
  }

  /** The new-to-old map is strictly increasing, and hits exactly the used
      indices. */
  lemma NewToOldProperties(used: seq<bool>, a: nat, b: nat)
    requires a < b < CountTrue(used, 0)
    ensures NewToOld(used)[a] < NewToOld(used)[b]
    ensures used[NewToOld(used)[a]] && NewToOld(used)[b] < |used|
  {
    PositionsIncreasing(used, 0);
  }

  /** Collects the used-index flags; fails when some user is not a
      get-tuple-element. */
  method UsedIndices(users: seq<User>, arity: nat) returns (allGte: bool, used: seq<bool>)
    requires forall u :: 0 <= u < |users| && users[u].Gte? ==> users[u].index < arity
    ensures allGte <==> OtherUser !in users
    ensures allGte ==> used == UsedFlags(users, arity)
  {
    used := seq(arity, _ => false);
    var k := 0;
    while k < |users|
      invariant 0 <= k <= |users| && |used| == arity
      invariant OtherUser !in users[..k]
      invariant forall i :: 0 <= i < arity ==> (used[i] <==> Gte(i) in users[..k])
    {
      if users[k].OtherUser? {
        assert users[k] in users;
        return false, used;
      }
      used := used[users[k].index := true];
      assert users[..k + 1] == users[..k] + [users[k]];
      k := k + 1;
    }
    assert users[..k] == users;
    return true, used;
  }

  /** The two index maps RemoveUnusedTupleElements builds: new-to-old, and
      old-to-new defined on exactly the used indices as its inverse. */
  method IndexMappings(used: seq<bool>) returns (newToOld: map<nat, nat>, oldToNew: map<nat, nat>)
    ensures newToOld == NewToOld(used)
    ensures forall i: nat :: i in oldToNew <==> i < |used| && used[i]
    ensures forall k :: k in newToOld ==> newToOld[k] in oldToNew && oldToNew[newToOld[k]] == k
    ensures forall i :: i in oldToNew ==> oldToNew[i] in newToOld && newToOld[oldToNew[i]] == i
  {
    var all: seq<nat> := Positions(used, 0);
    var size := CountTrue(used, 0);
    newToOld, oldToNew := map[], map[];
    var oldIter: nat := 0;
    var newIndex: nat := 0;
    while newIndex < size
      invariant 0 <= newIndex <= size == |all| && oldIter <= |used|
      invariant all[newIndex..] == Positions(used, oldIter)
      invariant MapsSoFar(used, all, newIndex, oldIter, newToOld, oldToNew)
    {
      var found := FindUsed(used, all, newIndex, oldIter);
      MapsStep(used, all, newIndex, oldIter, found, newToOld, oldToNew);
      newToOld := newToOld[newIndex := found];
      oldToNew := oldToNew[found := newIndex];
      oldIter := found + 1;
      newIndex := newIndex + 1;
    }
    PositionsComplete(used, oldIter);
    MappingsComplete(used, all, newToOld, oldToNew);
  }

  /** The two maps after newIndex rounds, with the search at oldIter. */
  ghost predicate MapsSoFar(used: seq<bool>, all: seq<nat>, newIndex: nat, oldIter: nat,
                      newToOld: map<nat, nat>, oldToNew: map<nat, nat>)
  {
    newIndex <= |all|
    && (forall k: nat :: k in newToOld <==> k < newIndex)
    && (forall k: nat :: k < newIndex ==> newToOld[k] == all[k])
    && (forall i: nat :: i in oldToNew <==> i < oldIter && i < |used| && used[i])
    && (forall k: nat :: k < newIndex ==> all[k] < oldIter && all[k] in oldToNew && oldToNew[all[k]] == k)
  }

  /** One round of the mapping loop keeps MapsSoFar. */
  lemma MapsStep(used: seq<bool>, all: seq<nat>, newIndex: nat, oldIter: nat, found: nat,
                 newToOld: map<nat, nat>, oldToNew: map<nat, nat>)
    requires MapsSoFar(used, all, newIndex, oldIter, newToOld, oldToNew) && newIndex < |all|
    requires oldIter <= found < |used| && used[found] && all[newIndex] == found
    requires forall i :: oldIter <= i < found ==> !used[i]
    ensures MapsSoFar(used, all, newIndex + 1, found + 1,
                      newToOld[newIndex := found], oldToNew[found := newIndex])
  {
  }

  /** std::find of the next set flag from oldIter: it is the next entry of
      the positions list, and what follows it is the rest of the list. */
  method FindUsed(used: seq<bool>, all: seq<nat>, newIndex: nat, from: nat) returns (r: nat)
    requires newIndex < |all| && from <= |used|
    requires all[newIndex..] == Positions(used, from)
    ensures from <= r < |used| && used[r] && all[newIndex] == r
    ensures forall i :: from <= i < r ==> !used[i]
    ensures all[newIndex + 1..] == Positions(used, r + 1)
  {
    r := from;
    while r < |used| && !used[r]
      invariant from <= r <= |used|
      invariant forall i :: from <= i < r ==> !used[i]
      invariant all[newIndex..] == Positions(used, r)
    {
      PositionsSkip(used, r);
      r := r + 1;
    }
    assert all[newIndex + 1..] == all[newIndex..][1..];
  }

  /** What the mapping loop leaves, read as the two maps' contracts. */
  lemma MappingsComplete(used: seq<bool>, all: seq<nat>, newToOld: map<nat, nat>, oldToNew: map<nat, nat>)
    requires all == Positions(used, 0)
    requires forall k: nat :: k in newToOld <==> k < |all|
    requires forall k: nat :: k < |all| ==> newToOld[k] == all[k]
    requires forall i: nat :: i in oldToNew <==> i < |used| && used[i]
    requires forall k: nat :: k < |all| ==> oldToNew[all[k]] == k
    ensures newToOld == NewToOld(used)
    ensures forall i: nat :: i in oldToNew <==> i < |used| && used[i]
    ensures forall k :: k in newToOld ==> newToOld[k] in oldToNew && oldToNew[newToOld[k]] == k
    ensures forall i :: i in oldToNew ==> oldToNew[i] in newToOld && newToOld[oldToNew[i]] == i
  {
    NewToOldFrom(used, all, newToOld);
    OldToNewInverse(used, all, newToOld, oldToNew);
  }

  lemma OldToNewInverse(used: seq<bool>, all: seq<nat>, newToOld: map<nat, nat>, oldToNew: map<nat, nat>)
    requires all == Positions(used, 0)
    requires forall k: nat :: k in newToOld <==> k < |all|
    requires forall k: nat :: k < |all| ==> newToOld[k] == all[k]
    requires forall i: nat :: i in oldToNew <==> i < |used| && used[i]
    requires forall k: nat :: k < |all| ==> oldToNew[all[k]] == k
    ensures forall i :: i in oldToNew ==> oldToNew[i] in newToOld && newToOld[oldToNew[i]] == i
  {
    PositionsComplete(used, 0);
    forall i | i in oldToNew ensures oldToNew[i] in newToOld && newToOld[oldToNew[i]] == i {
      var k :| 0 <= k < |all| && all[k] == i;
    }
  }

  lemma NewToOldFrom(used: seq<bool>, all: seq<nat>, newToOld: map<nat, nat>)
    requires all == Positions(used, 0)
    requires forall k: nat :: k in newToOld <==> k < |all|
    requires forall k: nat :: k < |all| ==> newToOld[k] == all[k]
    ensures newToOld == NewToOld(used)
  {
  }

  /** The tuple that keeps only the used elements, in order. */
  function Project<V>(t: seq<V>, used: seq<bool>): (r: seq<V>)
    requires |t| == |used|
    ensures |r| == CountTrue(used, 0)
  {
    var all := Positions(used, 0);
    seq(|all|, k requires 0 <= k < |all| => t[all[k]])
  }

  /** Rerouting a user through old-to-new keeps what it reads: the new
      tuple's element at the new index is the old tuple's element at the old
      index. */
  lemma RerouteKeepsElement<V>(used: seq<bool>, t: seq<V>, oldIndex: nat, newIndex: nat)
    requires |t| == |used| && newIndex in NewToOld(used) && NewToOld(used)[newIndex] == oldIndex
    ensures oldIndex < |t| && newIndex < |Project(t, used)|
    ensures Project(t, used)[newIndex] == t[oldIndex]
  {
  }

  // ---------------------------------------------------------------------
  // Duplicate tuple elements

  /** The refusals of RemoveUnusedTupleElements: no users, the root, not a
      tuple, a user that is not a get-tuple-element, every element used, or
      a branch root of an incompatible shape. */
  predicate RemovesUnused(users: seq<User>, isRoot: bool, arity: Option<nat>, rootsCompatible: seq<bool>)
  {
    |users| > 0 && !isRoot && arity.Some? && OtherUser !in users
    && (exists i :: 0 <= i < arity.value && !UsedBy(users, i))
    && forall b :: 0 <= b < |rootsCompatible| ==> rootsCompatible[b]
  }

  /** Every index is used exactly when there are as many used indices as
      elements. */
  lemma AllUsed(users: seq<User>, n: nat)
    ensures CountTrue(UsedFlags(users, n), 0) == n <==> forall i :: 0 <= i < n ==> UsedBy(users, i)
  {
    var used := UsedFlags(users, n);
    CountTrueAll(used, 0);
    if forall i :: 0 <= i < n ==> UsedBy(users, i) {
      assert forall i :: 0 <= i < n ==> used[i];
    }
  }

  /** The part of RemoveUnusedTupleElements before anything changes: the
      guards, the used-index flags and the two index maps. */
  method PlanRemoval(users: seq<User>, isRoot: bool, arity: Option<nat>, rootsCompatible: seq<bool>)
    returns (ok: bool, used: seq<bool>, oldToNew: map<nat, nat>)
    requires forall u :: 0 <= u < |users| && users[u].Gte? ==> arity.Some? && users[u].index < arity.value
    ensures ok <==> RemovesUnused(users, isRoot, arity, rootsCompatible)
    ensures ok ==> used == UsedFlags(users, arity.value)
    ensures ok ==> forall u :: 0 <= u < |users| ==> users[u].Gte? && users[u].index in oldToNew
    ensures ok ==> forall i :: i in oldToNew ==> oldToNew[i] in NewToOld(used) && NewToOld(used)[oldToNew[i]] == i
  {
    oldToNew := map[];
    if |users| == 0 || isRoot || arity.None? {
      return false, [], oldToNew;
    }
    var oldSize := arity.value;
    var allGte;
    allGte, used := UsedIndices(users, oldSize);
    if !allGte {
      return false, used, oldToNew;
    }
    AllUsed(users, oldSize);
    if CountTrue(used, 0) == oldSize {
      return false, used, oldToNew;
    }
    var newToOld;
    newToOld, oldToNew := IndexMappings(used);
    var b := 0;
    while b < |rootsCompatible|
      invariant 0 <= b <= |rootsCompatible|
      invariant forall c :: 0 <= c < b ==> rootsCompatible[c]
    {
      if !rootsCompatible[b] {
        return false, used, oldToNew;
      }
      b := b + 1;
    }
    forall u | 0 <= u < |users| ensures users[u].Gte? && users[u].index in oldToNew {
      assert users[u] in users;
    }
    return true, used, oldToNew;
  }

  /** The root of a branch computation: a kTuple with its operands
      (instructions, by identity), or some other instruction. */
  datatype Root = TupleRoot(operands: seq<nat>) | OtherRoot

  predicate RootsCover(roots: seq<Root>, arity: nat)
  {
    forall b :: 0 <= b < |roots| ==> roots[b].TupleRoot? && |roots[b].operands| == arity
  }

  /** vectorize_branches_root_tuple_ith_operand: operand i of every branch
      root. */
  function Column(roots: seq<Root>, i: nat): (r: seq<nat>)
    requires forall b :: 0 <= b < |roots| ==> roots[b].TupleRoot? && i < |roots[b].operands|
    ensures |r| == |roots| && forall b :: 0 <= b < |roots| ==> r[b] == roots[b].operands[i]
  {
    seq(|roots|, b requires 0 <= b < |roots| => roots[b].operands[i])
  }

  /** The earliest index whose column is that of j, searching from k. */
  function EarliestFrom(roots: seq<Root>, arity: nat, j: nat, k: nat): (r: nat)
    requires RootsCover(roots, arity) && k <= j < arity
    requires forall m :: 0 <= m < k ==> Column(roots, m) != Column(roots, j)
    ensures k <= r <= j && Column(roots, r) == Column(roots, j)
    ensures forall m :: 0 <= m < r ==> Column(roots, m) != Column(roots, j)
    decreases j - k
  {
    if Column(roots, k) == Column(roots, j) then k else EarliestFrom(roots, arity, j, k + 1)
  }

  /** The earliest index whose per-branch operands are those of j. */
  function Earliest(roots: seq<Root>, arity: nat, j: nat): (r: nat)
    requires RootsCover(roots, arity) && j < arity
    ensures r <= j && Column(roots, r) == Column(roots, j)
    ensures forall m :: 0 <= m < r ==> Column(roots, m) != Column(roots, j)
  {
    EarliestFrom(roots, arity, j, 0)
  }

  /** Indices with the same column have the same earliest index. */
  lemma EarliestByColumn(roots: seq<Root>, arity: nat, a: nat, b: nat)
    requires RootsCover(roots, arity) && a < arity && b < arity
    requires Column(roots, a) == Column(roots, b)
    ensures Earliest(roots, arity, a) == Earliest(roots, arity, b)
  {
  }

  /** Redirecting every get-tuple-element to the earliest duplicate keeps
      what it reads in every branch. */
  lemma EarliestReadsSame(roots: seq<Root>, arity: nat, j: nat, b: nat)
    requires RootsCover(roots, arity) && j < arity && b < |roots|
    ensures roots[b].operands[Earliest(roots, arity, j)] == roots[b].operands[j]
  {
    var e := Earliest(roots, arity, j);
    assert Column(roots, e)[b] == Column(roots, j)[b];
  }

  /** The users after the merge: each reads the earliest duplicate of its
      index. */
  function MergedUser(x: User, roots: seq<Root>, arity: nat, upTo: nat): (r: User)
    requires RootsCover(roots, arity) && x.Gte? && x.index < arity
    ensures r.Gte? && r.index < arity
  {
    if x.index < upTo then Gte(Earliest(roots, arity, x.index)) else x
  }

  /** after is before with the users of the first upTo indices merged. */
  predicate MergedFrom(before: seq<User>, after: seq<User>, roots: seq<Root>, arity: nat, upTo: nat)
    requires RootsCover(roots, arity)
    requires forall u :: 0 <= u < |before| ==> before[u].Gte? && before[u].index < arity
  {
    |after| == |before|
    && forall u :: 0 <= u < |before| ==> after[u] == MergedUser(before[u], roots, arity, upTo)
  }

  // ---------------------------------------------------------------------
  // The conditional instruction as the two tuple passes update it

  class ConditionalOp {
    /** tuple_shapes_size of the result shape, or None when the shape is
        not a tuple. */
    var arity: Option<nat>
    /** The users, with the tuple index of each get-tuple-element. */
    var users: seq<User>
    /** Whether the conditional is the root of its computation. */
    var isRoot: bool

    /** Every get-tuple-element user reads an element that exists. */
    predicate Valid()
      reads this
    {
      forall u :: 0 <= u < |users| && users[u].Gte? ==>
        arity.Some? && users[u].index < arity.value
    }

    constructor (arity: Option<nat>, users: seq<User>, isRoot: bool)
      ensures this.arity == arity && this.users == users && this.isRoot == isRoot
    {
      this.arity := arity;
      this.users := users;
      this.isRoot := isRoot;
    }

    /** RemoveUnusedTupleElements. It refuses, changing nothing, when the
        conditional has no users, is the root, does not produce a tuple, has
        a user that is not a get-tuple-element, already uses every element,
        or has a branch whose root shape is not a compatible tuple.
        Otherwise the result keeps only the used elements and each user is
        re-pointed to its element's new index. */
    method RemoveUnusedTupleElements(rootsCompatible: seq<bool>) returns (changed: bool)
      requires Valid()
      modifies this
      ensures Valid() && isRoot == old(isRoot)
      ensures !changed ==> arity == old(arity) && users == old(users)
      ensures changed <==> RemovesUnused(old(users), old(isRoot), old(arity), rootsCompatible)
      ensures changed ==>
                var used := UsedFlags(old(users), old(arity).value);
                arity == Some(CountTrue(used, 0)) && |users| == old(|users|)
                && forall u :: 0 <= u < |users| ==>
                     users[u].Gte? && users[u].index in NewToOld(used)
                     && NewToOld(used)[users[u].index] == old(users)[u].index
    {
      var ok, used, oldToNew := PlanRemoval(users, isRoot, arity, rootsCompatible);
      if !ok {
        return false;
      }
      arity := Some(CountTrue(used, 0));
      Reroute(used, oldToNew);
      return true;
    }

    /** The loop that re-points every get-tuple-element user through
        old-to-new. */
    method Reroute(used: seq<bool>, oldToNew: map<nat, nat>)
      requires forall u :: 0 <= u < |users| ==> users[u].Gte? && users[u].index in oldToNew
      requires forall i :: i in oldToNew ==> oldToNew[i] in NewToOld(used) && NewToOld(used)[oldToNew[i]] == i
      requires arity == Some(CountTrue(used, 0))
      modifies this
      ensures arity == old(arity) && isRoot == old(isRoot) && |users| == old(|users|)
      ensures forall u :: 0 <= u < |users| ==>
                users[u].Gte? && users[u].index in NewToOld(used)
                && NewToOld(used)[users[u].index] == old(users)[u].index
      ensures Valid()
    {
      ghost var oldUsers := users;
      var u := 0;
      while u < |users|
        invariant 0 <= u <= |users| && |users| == |oldUsers|
        invariant arity == old(arity) && isRoot == old(isRoot)
        invariant forall v :: u <= v < |users| ==> users[v] == oldUsers[v]
        invariant forall v :: 0 <= v < u ==>
                    users[v].Gte? && users[v].index in NewToOld(used)
                    && NewToOld(used)[users[v].index] == oldUsers[v].index
      {
        var oldIndex := users[u].index;
        users := users[u := Gte(oldToNew[oldIndex])];
        u := u + 1;
      }
    }

    /** MergeDuplicateTupleElements. It refuses, changing nothing, when the
        conditional has no users, is the root, does not produce a tuple, has
        a user that is not a get-tuple-element or a branch whose root is not
        a kTuple. Otherwise every user is redirected to the earliest index
        whose operands agree with its own in every branch, and the result
        reports whether some user moved. */
    method MergeDuplicateTupleElements(roots: seq<Root>) returns (changed: bool)
      requires Valid()
      requires arity.Some? ==> forall b :: 0 <= b < |roots| && roots[b].TupleRoot? ==>
                                 |roots[b].operands| == arity.value
      modifies this
      ensures Valid() && arity == old(arity) && isRoot == old(isRoot)
      ensures !MergesDuplicates(old(users), old(isRoot), arity, roots) ==> !changed && users == old(users)
      ensures MergesDuplicates(old(users), old(isRoot), arity, roots) ==>
                MergedFrom(old(users), users, roots, arity.value, arity.value)
                && (changed <==> users != old(users))
    {
      var ok := CheckMergeable(users, isRoot, arity, roots);
      if !ok {
        return false;
      }
      changed := MergeLoop(roots);
    }

    /** The loop over the tuple indices: the first index with a given
        column of operands is recorded, and the users of every later index
        with that column are redirected to it. */
    method MergeLoop(roots: seq<Root>) returns (changed: bool)
      requires Valid() && arity.Some? && RootsCover(roots, arity.value)
      requires forall u :: 0 <= u < |users| ==> users[u].Gte?
      modifies this
      ensures arity == old(arity) && isRoot == old(isRoot) && Valid()
      ensures MergedFrom(old(users), users, roots, arity.value, arity.value)
      ensures changed <==> users != old(users)
    {
      var n := arity.value;
      ghost var oldUsers := users;
      changed := false;
      var table: map<seq<nat>, nat> := map[];
      var i := 0;
      while i < n
        invariant 0 <= i <= n && |users| == |oldUsers| && arity == Some(n) && isRoot == old(isRoot)
        invariant TableHolds(roots, n, i, table)
        invariant MergedFrom(oldUsers, users, roots, n, i)
        invariant changed <==> users != oldUsers
      {
        var moved;
        table, moved := MergeIndex(roots, n, i, table, oldUsers);
        changed := changed || moved;
        i := i + 1;
      }
    }

    /** One round of the merge loop, for index i. */
    method MergeIndex(roots: seq<Root>, n: nat, i: nat, table: map<seq<nat>, nat>, ghost oldUsers: seq<User>)
      returns (table': map<seq<nat>, nat>, moved: bool)
      requires RootsCover(roots, n) && i < n && TableHolds(roots, n, i, table)
      requires forall u :: 0 <= u < |oldUsers| ==> oldUsers[u].Gte? && oldUsers[u].index < n
      requires MergedFrom(oldUsers, users, roots, n, i)
      modifies this
      ensures arity == old(arity) && isRoot == old(isRoot)
      ensures TableHolds(roots, n, i + 1, table') && MergedFrom(oldUsers, users, roots, n, i + 1)
      ensures users != oldUsers <==> old(users) != oldUsers || moved
    {
      var col := Column(roots, i);
      ghost var before := users;
      if col in table {
        var first := table[col];
        TableSeen(roots, n, i, table);
        moved := Redirect(first, i);
        MergeAdvance(oldUsers, roots, n, i, before, users);
        table' := table;
      } else {
        TableNew(roots, n, i, table);
        table' := table[col := i];
        MergeAdvance(oldUsers, roots, n, i, before, users);
        moved := false;
      }
    }

    /** replace_root_user_gte_jth_with_gte_ith. */
    method Redirect(i: nat, j: nat) returns (changed: bool)
      modifies this
      ensures |users| == old(|users|)
      ensures forall u :: 0 <= u < |users| ==>
                users[u] == (if old(users)[u] == Gte(j) then Gte(i) else old(users)[u])
      ensures changed <==> Gte(j) in old(users)
      ensures arity == old(arity) && isRoot == old(isRoot)
    {
      changed := false;
      var u := 0;
      ghost var oldUsers := users;
      while u < |users|
        invariant 0 <= u <= |users| && |users| == |oldUsers|
        invariant arity == old(arity) && isRoot == old(isRoot)
        invariant forall v :: 0 <= v < |users| ==>
                    users[v] == (if v < u && oldUsers[v] == Gte(j) then Gte(i) else oldUsers[v])
        invariant changed <==> Gte(j) in oldUsers[..u]
      {
        if users[u] == Gte(j) {
          users := users[u := Gte(i)];
          changed := true;
        }
        assert oldUsers[..u + 1] == oldUsers[..u] + [oldUsers[u]];
        u := u + 1;
      }
      assert oldUsers[..u] == oldUsers;
    }
  }

  /** When MergeDuplicateTupleElements goes ahead: the conditional has
      users, is not the root, produces a tuple, all its users are
      get-tuple-elements and every branch root is a kTuple. */
  predicate MergesDuplicates(users: seq<User>, isRoot: bool, arity: Option<nat>, roots: seq<Root>)
  {
    |users| > 0 && !isRoot && arity.Some? && OtherUser !in users
    && forall b :: 0 <= b < |roots| ==> roots[b].TupleRoot?
  }

  /** The guards of MergeDuplicateTupleElements, checked in order. */
  method CheckMergeable(users: seq<User>, isRoot: bool, arity: Option<nat>, roots: seq<Root>) returns (ok: bool)
    ensures ok <==> MergesDuplicates(users, isRoot, arity, roots)
  {
    if |users| == 0 || isRoot || arity.None? {
      return false;
    }
    var k := 0;
    while k < |users|
      invariant 0 <= k <= |users|
      invariant OtherUser !in users[..k]
    {
      if users[k].OtherUser? {
        assert users[k] in users;
        return false;
      }
      assert users[..k + 1] == users[..k] + [users[k]];
      k := k + 1;
    }
    assert users[..k] == users;
    var b := 0;
    while b < |roots|
      invariant 0 <= b <= |roots|
      invariant forall c :: 0 <= c < b ==> roots[c].TupleRoot?
    {
      if roots[b].OtherRoot? {
        return false;
      }
      b := b + 1;
    }
    return true;
  }

  /** index_collision_table after the first i indices: every column seen so
      far maps to the earliest index that has it. */
  predicate TableHolds(roots: seq<Root>, n: nat, i: nat, table: map<seq<nat>, nat>)
    requires RootsCover(roots, n) && i <= n
  {
    (forall m :: 0 <= m < i ==> Column(roots, m) in table)
    && (forall c {:trigger table[c]} :: c in table ==>
          table[c] < i && Column(roots, table[c]) == c && table[c] == Earliest(roots, n, table[c]))
  }

  /** A column already in the table maps to index i's earliest duplicate,
      which lies before i. */
  lemma TableSeen(roots: seq<Root>, n: nat, i: nat, table: map<seq<nat>, nat>)
    requires RootsCover(roots, n) && i < n && TableHolds(roots, n, i, table)
    requires Column(roots, i) in table
    ensures table[Column(roots, i)] == Earliest(roots, n, i) != i
    ensures TableHolds(roots, n, i + 1, table)
  {
    var col := Column(roots, i);
    var first := table[col];
    assert first < i && Column(roots, first) == col && first == Earliest(roots, n, first);
    EarliestByColumn(roots, n, first, i);
    TableGrows(roots, n, i, table);
  }

  lemma TableGrows(roots: seq<Root>, n: nat, i: nat, table: map<seq<nat>, nat>)
    requires RootsCover(roots, n) && i < n && TableHolds(roots, n, i, table)
    requires Column(roots, i) in table
    ensures TableHolds(roots, n, i + 1, table)
  {
    forall m | 0 <= m < i + 1 ensures Column(roots, m) in table {
      if m < i {
        assert TableHolds(roots, n, i, table);
      }
    }
  }

  /** A column not yet in the table is first seen at i. */
  lemma TableNew(roots: seq<Root>, n: nat, i: nat, table: map<seq<nat>, nat>)
    requires RootsCover(roots, n) && i < n && TableHolds(roots, n, i, table)
    requires Column(roots, i) !in table
    ensures Earliest(roots, n, i) == i
    ensures TableHolds(roots, n, i + 1, table[Column(roots, i) := i])
  {
    var t := table[Column(roots, i) := i];
    forall c | c in t ensures t[c] < i + 1 && Column(roots, t[c]) == c && t[c] == Earliest(roots, n, t[c]) {
      if c != Column(roots, i) {
        assert c in table;
      }
    }
  }

  /** One round of the merge loop: users of index i move to its earliest
      duplicate. */
  lemma MergeAdvance(oldUsers: seq<User>, roots: seq<Root>, n: nat, i: nat,
                     before: seq<User>, after: seq<User>)
    requires RootsCover(roots, n) && i < n
    requires forall u :: 0 <= u < |oldUsers| ==> oldUsers[u].Gte? && oldUsers[u].index < n
    requires MergedFrom(oldUsers, before, roots, n, i) && |after| == |before|
    requires forall u :: 0 <= u < |after| ==>
               after[u] == (if before[u] == Gte(i) then Gte(Earliest(roots, n, i)) else before[u])
    ensures MergedFrom(oldUsers, after, roots, n, i + 1)
    ensures after != oldUsers <==> before != oldUsers || (Gte(i) in before && Earliest(roots, n, i) != i)
  {
    forall u | 0 <= u < |after| ensures after[u] == MergedUser(oldUsers[u], roots, n, i + 1) {
      var j := oldUsers[u].index;
      if j < i {
        assert Earliest(roots, n, j) <= j;
      }
    }
    if Gte(i) in before && Earliest(roots, n, i) != i {
      var u :| 0 <= u < |before| && before[u] == Gte(i);
      assert after[u] != oldUsers[u];
    }
    if before != oldUsers {
      var u :| 0 <= u < |before| && before[u] != oldUsers[u];
      assert after[u] != oldUsers[u];
    }
    if after != oldUsers && before == oldUsers {
      var u :| 0 <= u < |after| && after[u] != before[u];
    }
  }
}
