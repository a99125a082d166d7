// PropagatorState: the executor's bookkeeping for frames and loop
// iterations. A frame keeps its live iterations in a ring of
// max_parallel_iterations + 1 slots, counts outstanding iterations, and
// deletes finished iterations in order, starting a deferred iteration when
// one finishes.

// The iteration bookkeeping of one frame, as values, and the ring of slots
// that holds the outstanding iterations.
module FrameIterations {
  import opened Common

  // ---------------------------------------------------------------------
  // The state of one frame, as a value

  /** IterationState: its number and the counts that keep it alive. */
  datatype Iteration = Iteration(iterNum: nat, outstandingOps: int, outstandingFrameCount: int)

  /** The fields of a FrameState that the iteration bookkeeping reads and
      writes, with the outstanding iterations listed oldest first (the
      class below stores them in its ring of slots). Nodes (deferred
      NextIteration roots, loop invariants, dead exits) are numbered. */
  datatype Frame = Frame(maxParallel: nat, iterationCount: nat, numOutstandingIterations: int,
                         numPendingInputs: int, live: seq<Iteration>,
                         deadExits: seq<nat>, nextIterRoots: seq<nat>, invValues: seq<nat>)

  /** The oldest iteration still outstanding. */
  function Oldest(f: Frame): int
  {
    f.iterationCount + 1 - f.numOutstandingIterations
  }

  predicate Outstanding(f: Frame, i: nat)
  {
    Oldest(f) <= i <= f.iterationCount
  }

  /** What a frame keeps: the outstanding iterations are the last
      numOutstandingIterations ones, at most max_parallel_iterations of
      them. */
  ghost predicate Valid(f: Frame)
  {
    && f.maxParallel >= 1
    && 0 <= f.numOutstandingIterations <= f.maxParallel
    && f.numOutstandingIterations <= f.iterationCount + 1
    && |f.live| == f.numOutstandingIterations
    && forall k :: 0 <= k < |f.live| ==> f.live[k].iterNum == Oldest(f) + k
  }

  /** The state of an outstanding iteration. */
  function GetIteration(f: Frame, i: nat): (r: Iteration)
    requires Valid(f) && Outstanding(f, i)
    ensures r.iterNum == i
  {
    f.live[i - Oldest(f)]
  }

  /** A frame's first state: iteration 0 outstanding with no ops, and the
      enclosing frame's input count pending. */
  function InitialFrame(maxParallel: nat, inputCount: int): (r: Frame)
    requires maxParallel >= 1
    ensures Valid(r) && Oldest(r) == 0 && r.iterationCount == 0
    ensures GetIteration(r, 0) == Iteration(0, 0, 0)
  {
    Frame(maxParallel, 0, 1, inputCount, [Iteration(0, 0, 0)], [], [], [])
  }

  // ---------------------------------------------------------------------
  // Queries

  /** IsIterationDone: no outstanding ops or child frames, and either it is
      iteration 0 and the frame has no pending inputs, or the iteration
      before it is no longer outstanding. */
  predicate IsIterationDone(f: Frame, it: Iteration)
  {
    if it.outstandingOps == 0 && it.outstandingFrameCount == 0 then
      if it.iterNum == 0 then f.numPendingInputs == 0
      else it.iterNum - 1 < Oldest(f)
    else false
  }

  /** An outstanding iteration is done exactly when its counts are zero,
      it is the oldest, and (for iteration 0) no input is pending:
      iterations finish in order. */
  lemma IsIterationDoneMeans(f: Frame, i: nat)
    requires Valid(f) && Outstanding(f, i)
    ensures IsIterationDone(f, GetIteration(f, i)) <==>
              var it := GetIteration(f, i);
              it.outstandingOps == 0 && it.outstandingFrameCount == 0 && i == Oldest(f)
              && (i == 0 ==> f.numPendingInputs == 0)
  {
  }

  /** IsFrameDone: no pending inputs and no outstanding iterations. */
  predicate IsFrameDone(f: Frame)
  {
    f.numPendingInputs == 0 && f.numOutstandingIterations == 0
  }

  // ---------------------------------------------------------------------
  // Updates

  /** An outstanding iteration with new counts. */
  function Replaced(f: Frame, it: Iteration): (r: Frame)
    requires Valid(f) && Outstanding(f, it.iterNum)
    ensures Valid(r) && Oldest(r) == Oldest(f) && r.(live := f.live) == f
    ensures GetIteration(r, it.iterNum) == it
    ensures forall i: nat :: Outstanding(f, i) && i != it.iterNum ==> GetIteration(r, i) == GetIteration(f, i)
  {
    f.(live := f.live[it.iterNum - Oldest(f) := it])
  }

  /** The counter effect of ActivateNodes: the n nodes it makes ready in
      iteration i add to that iteration's outstanding ops. */
  function AddOps(f: Frame, i: nat, n: nat): (r: Frame)
    requires Valid(f) && Outstanding(f, i)
    ensures Valid(r) && r.(live := f.live) == f
    ensures GetIteration(r, i).outstandingOps == GetIteration(f, i).outstandingOps + n
    ensures GetIteration(r, i).outstandingFrameCount == GetIteration(f, i).outstandingFrameCount
    ensures forall j: nat :: Outstanding(f, j) && j != i ==> GetIteration(r, j) == GetIteration(f, j)
  {
    var it := GetIteration(f, i);
    Replaced(f, it.(outstandingOps := it.outstandingOps + n))
  }

  /** The number of nodes that activating each of items in iteration iter
      makes ready; activate(item, iter) stands for ActivateNodes, which adds
      one outstanding op to the iteration per node it makes ready. */
  function Activations(items: seq<nat>, iter: nat, activate: (nat, nat) -> nat): nat
  {
    if items == [] then 0
    else Activations(items[..|items| - 1], iter, activate) + activate(items[|items| - 1], iter)
  }

  /** IncrementIteration: the iteration count and the outstanding count
      both go up by one, the dead exits are cleared, and the deferred roots
      and then the loop invariants are activated in the new iteration (the
      deferred roots are then cleared). */
  function IncrementIteration(f: Frame, activate: (nat, nat) -> nat): (r: Frame)
    requires Valid(f) && f.numOutstandingIterations < f.maxParallel
    ensures Valid(r) && Oldest(r) == Oldest(f)
    ensures r.iterationCount == f.iterationCount + 1
    ensures r.numOutstandingIterations == f.numOutstandingIterations + 1
    ensures r.deadExits == [] && r.nextIterRoots == []
    ensures r.invValues == f.invValues && r.numPendingInputs == f.numPendingInputs && r.maxParallel == f.maxParallel
    ensures GetIteration(r, r.iterationCount) ==
              Iteration(r.iterationCount,
                        Activations(f.nextIterRoots, r.iterationCount, activate)
                        + Activations(f.invValues, r.iterationCount, activate), 0)
    ensures forall i: nat :: Outstanding(f, i) ==> GetIteration(r, i) == GetIteration(f, i)
  {
    var n := f.iterationCount + 1;
    var ops := Activations(f.nextIterRoots, n, activate) + Activations(f.invValues, n, activate);
    f.(iterationCount := n, numOutstandingIterations := f.numOutstandingIterations + 1,
       live := f.live + [Iteration(n, ops, 0)], deadExits := [], nextIterRoots := [])
  }

  /** Deleting the oldest outstanding iteration: one iteration fewer is
      outstanding, and a deferred iteration, if any, starts. */
  function DeleteOldest(f: Frame, activate: (nat, nat) -> nat): (r: Frame)
    requires Valid(f) && f.numOutstandingIterations > 0
    ensures Valid(r) && Oldest(r) == Oldest(f) + 1
    ensures r.iterationCount == f.iterationCount + (if f.nextIterRoots != [] then 1 else 0)
    ensures r.nextIterRoots == [] && r.invValues == f.invValues && r.numPendingInputs == f.numPendingInputs
    ensures r.maxParallel == f.maxParallel
    ensures forall i: nat :: Outstanding(f, i) && i != Oldest(f) ==> GetIteration(r, i) == GetIteration(f, i)
  {
    var g := Retire(f);
    if f.nextIterRoots != [] then IncrementIteration(g, activate) else g
  }

  /** The oldest iteration deleted, before any deferred one starts. */
  function Retire(f: Frame): (r: Frame)
    requires Valid(f) && f.numOutstandingIterations > 0
    ensures Valid(r) && Oldest(r) == Oldest(f) + 1
    ensures r.numOutstandingIterations == f.numOutstandingIterations - 1 && r.iterationCount == f.iterationCount
    ensures forall i: nat :: Outstanding(r, i) ==> GetIteration(r, i) == GetIteration(f, i)
  {
    f.(numOutstandingIterations := f.numOutstandingIterations - 1, live := f.live[1..])
  }

  /** The measure the cleanup loop runs down: at most one iteration is
      started while deleting, since starting one clears the deferred
      roots. */
  function CleanupMeasure(f: Frame, curr: nat): nat
  {
    if curr <= f.iterationCount + 1 then
      f.iterationCount + 1 - curr + (if f.nextIterRoots != [] then 1 else 0)
    else 0
  }

  /** Whether the cleanup loop deletes iteration curr. */
  predicate DeletesNext(f: Frame, curr: nat)
    requires Valid(f) && (Outstanding(f, curr) || curr == f.iterationCount + 1)
  {
    curr <= f.iterationCount && IsIterationDone(f, GetIteration(f, curr))
  }

  /** CleanupIterations from iteration curr: while curr is outstanding and
      done, delete it and move to the next. The result is the frame and the
      number of iterations deleted. */
  function CleanupFrom(f: Frame, curr: nat, activate: (nat, nat) -> nat): (r: (Frame, nat))
    requires Valid(f) && (Outstanding(f, curr) || curr == f.iterationCount + 1)
    ensures Valid(r.0) && r.0.maxParallel == f.maxParallel && r.0.iterationCount >= f.iterationCount
    decreases CleanupMeasure(f, curr)
  {
    if DeletesNext(f, curr) then
      var rest := CleanupFrom(DeleteOldest(f, activate), curr + 1, activate);
      (rest.0, rest.1 + 1)
    else
      (f, 0)
  }

  /** The cleanup loop's exit: when curr is not deleted, nothing is. */
  lemma CleanupUnfold(f: Frame, curr: nat, activate: (nat, nat) -> nat)
    requires Valid(f) && (Outstanding(f, curr) || curr == f.iterationCount + 1)
    ensures !DeletesNext(f, curr) ==> CleanupFrom(f, curr, activate).0 == f
  {
  }

  /** One round of the cleanup loop: after deleting curr the loop goes on
      from curr + 1 towards the same result, and its measure falls. */
  lemma CleanupAdvance(f: Frame, curr: nat, activate: (nat, nat) -> nat)
    requires Valid(f) && Outstanding(f, curr) && DeletesNext(f, curr)
    ensures var g := DeleteOldest(f, activate);
            && (Outstanding(g, curr + 1) || curr + 1 == g.iterationCount + 1)
            && CleanupFrom(g, curr + 1, activate).0 == CleanupFrom(f, curr, activate).0
            && CleanupMeasure(g, curr + 1) < CleanupMeasure(f, curr)
  {
    IsIterationDoneMeans(f, curr);
  }

  /** Cleanup deletes iterations only from the oldest one on, in order:
      the oldest outstanding iteration moves up by the number deleted, and
      a cleanup that deletes nothing changes nothing. */
  lemma {:induction false} CleanupOldest(f: Frame, curr: nat, activate: (nat, nat) -> nat)
    requires Valid(f) && (Outstanding(f, curr) || curr == f.iterationCount + 1)
    ensures var c := CleanupFrom(f, curr, activate);
            && (c.1 == 0 ==> c.0 == f)
            && (c.1 > 0 ==> curr == Oldest(f) && Oldest(c.0) == Oldest(f) + c.1)
    decreases CleanupMeasure(f, curr)
  {
    if DeletesNext(f, curr) {
      CleanupOldest(DeleteOldest(f, activate), curr + 1, activate);
    }
  }

  /** At most one iteration starts during cleanup: the deferred one, when
      something was deleted; the outstanding count falls by one per deleted
      iteration and rises by one for the started one. */
  lemma {:induction false} CleanupCounts(f: Frame, curr: nat, activate: (nat, nat) -> nat)
    requires Valid(f) && (Outstanding(f, curr) || curr == f.iterationCount + 1)
    ensures var c := CleanupFrom(f, curr, activate);
            && c.0.iterationCount == f.iterationCount + (if c.1 > 0 && f.nextIterRoots != [] then 1 else 0)
            && c.0.numOutstandingIterations == f.numOutstandingIterations - c.1 + (c.0.iterationCount - f.iterationCount)
    decreases CleanupMeasure(f, curr)
  {
    if DeletesNext(f, curr) {
      CleanupCounts(DeleteOldest(f, activate), curr + 1, activate);
    }
  }

  /** Cleanup clears the deferred roots when it deletes anything, and
      keeps the loop invariants and the pending input count. */
  lemma {:induction false} CleanupRoots(f: Frame, curr: nat, activate: (nat, nat) -> nat)
    requires Valid(f) && (Outstanding(f, curr) || curr == f.iterationCount + 1)
    ensures var c := CleanupFrom(f, curr, activate);
            && c.0.nextIterRoots == (if c.1 > 0 then [] else f.nextIterRoots)
            && c.0.invValues == f.invValues && c.0.numPendingInputs == f.numPendingInputs
    decreases CleanupMeasure(f, curr)
  {
    if DeletesNext(f, curr) {
      CleanupRoots(DeleteOldest(f, activate), curr + 1, activate);
    }
  }

  /** The iterations cleanup leaves are as they were. */
  lemma {:induction false} CleanupKeeps(f: Frame, curr: nat, activate: (nat, nat) -> nat, i: nat)
    requires Valid(f) && (Outstanding(f, curr) || curr == f.iterationCount + 1)
    requires Outstanding(f, i) && Oldest(CleanupFrom(f, curr, activate).0) <= i
    ensures GetIteration(CleanupFrom(f, curr, activate).0, i) == GetIteration(f, i)
    decreases CleanupMeasure(f, curr)
  {
    if DeletesNext(f, curr) {
      var g := DeleteOldest(f, activate);
      CleanupOldest(f, curr, activate);
      CleanupKeeps(g, curr + 1, activate, i);
    }
  }

  /** Iteration k, if outstanding, is not done. */
  predicate NotDoneAt(f: Frame, k: nat)
    requires Valid(f)
  {
    Outstanding(f, k) ==> !IsIterationDone(f, GetIteration(f, k))
  }

  /** Cleanup stops at the first iteration that is not done. */
  lemma {:induction false} CleanupStops(f: Frame, curr: nat, activate: (nat, nat) -> nat)
    requires Valid(f) && (Outstanding(f, curr) || curr == f.iterationCount + 1)
    ensures var c := CleanupFrom(f, curr, activate); NotDoneAt(c.0, curr + c.1)
    decreases CleanupMeasure(f, curr)
  {
    if DeletesNext(f, curr) {
      CleanupStops(DeleteOldest(f, activate), curr + 1, activate);
    }
  }

  /** Every iteration cleanup deletes had no outstanding ops or child
      frames. */
  lemma {:induction false} CleanupDeletesDone(f: Frame, curr: nat, activate: (nat, nat) -> nat, i: nat)
    requires Valid(f) && (Outstanding(f, curr) || curr == f.iterationCount + 1)
    requires Oldest(f) <= i < Oldest(CleanupFrom(f, curr, activate).0) && i <= f.iterationCount
    ensures GetIteration(f, i).outstandingOps == 0 && GetIteration(f, i).outstandingFrameCount == 0
    decreases CleanupMeasure(f, curr)
  {
    CleanupOldest(f, curr, activate);
    assert DeletesNext(f, curr);
    if i > curr {
      var g := DeleteOldest(f, activate);
      assert GetIteration(g, i) == GetIteration(f, i);
      CleanupDeletesDone(g, curr + 1, activate, i);
    }
  }

  /** DecrementOutstandingOpsLocked: one op of iteration iter finishes;
      cleanup runs only when the count reaches zero. The result is the frame
      and whether the frame is done. */
  function DecrementOutstandingOps(f: Frame, iter: nat, activate: (nat, nat) -> nat): (r: (Frame, bool))
    requires Valid(f) && Outstanding(f, iter)
    ensures Valid(r.0)
    ensures var it := GetIteration(f, iter);
            var g := Replaced(f, it.(outstandingOps := it.outstandingOps - 1));
            if it.outstandingOps != 1 then r == (g, false)
            else r == (CleanupFrom(g, iter, activate).0, IsFrameDone(CleanupFrom(g, iter, activate).0))
  {
    var it := GetIteration(f, iter);
    var g := Replaced(f, it.(outstandingOps := it.outstandingOps - 1));
    if it.outstandingOps - 1 != 0 then (g, false)
    else
      var c := CleanupFrom(g, iter, activate);
      (c.0, IsFrameDone(c.0))
  }

  /** A child frame starts in iteration iter (FindOrCreateChildFrame
      creating one): the iteration's outstanding frame count goes up. */
  function AddChildFrame(f: Frame, iter: nat): (r: Frame)
    requires Valid(f) && Outstanding(f, iter)
    ensures Valid(r) && r.(live := f.live) == f
    ensures GetIteration(r, iter).outstandingFrameCount == GetIteration(f, iter).outstandingFrameCount + 1
    ensures GetIteration(r, iter).outstandingOps == GetIteration(f, iter).outstandingOps
    ensures forall j: nat :: Outstanding(f, j) && j != iter ==> GetIteration(r, j) == GetIteration(f, j)
  {
    var it := GetIteration(f, iter);
    Replaced(f, it.(outstandingFrameCount := it.outstandingFrameCount + 1))
  }

  /** A child frame of iteration iter is done (the frame's part of
      CleanupFramesIterations): the outstanding frame count goes down and
      cleanup runs from iter. The result is the frame and whether it is
      done. */
  function ChildFrameDone(f: Frame, iter: nat, activate: (nat, nat) -> nat): (r: (Frame, bool))
    requires Valid(f) && Outstanding(f, iter)
    ensures Valid(r.0) && (r.1 <==> IsFrameDone(r.0))
    ensures var it := GetIteration(f, iter);
            r.0 == CleanupFrom(Replaced(f, it.(outstandingFrameCount := it.outstandingFrameCount - 1)), iter, activate).0
  {
    var it := GetIteration(f, iter);
    var c := CleanupFrom(Replaced(f, it.(outstandingFrameCount := it.outstandingFrameCount - 1)), iter, activate);
    (c.0, IsFrameDone(c.0))
  }

  /** Where PropagateOutputs sends the output of a NextIteration node run in
      iteration iter: nowhere when it is dead; into the deferred roots when
      it is in the newest iteration and max_parallel_iterations iterations
      are outstanding; into a new iteration when it is in the newest one
      otherwise; and into the next iteration, already outstanding, when it
      is not in the newest one. */
  datatype Route = Drop | Defer | StartNew | ToNext

  function RouteNextIteration(f: Frame, iter: nat, isDead: bool): (r: Route)
    requires Valid(f) && Outstanding(f, iter)
    ensures r == Defer <==> !isDead && iter == f.iterationCount && f.numOutstandingIterations == f.maxParallel
    ensures r == Drop <==> isDead
    ensures r == StartNew ==> iter == f.iterationCount && f.numOutstandingIterations < f.maxParallel
    ensures r == ToNext ==> Outstanding(f, iter + 1)
  {
    if isDead then Drop
    else if iter == f.iterationCount && f.numOutstandingIterations == f.maxParallel then Defer
    else if iter == f.iterationCount then StartNew
    else ToNext
  }

  /** Where the output of a NextIteration node run in iteration iter
      goes: activate(item, i) makes the successors ready in the target
      iteration i. The node's own iteration stays outstanding and keeps its
      counts. */
  function RouteOutput(f: Frame, iter: nat, isDead: bool, item: nat, activate: (nat, nat) -> nat): (r: Frame)
    requires Valid(f) && Outstanding(f, iter)
    ensures Valid(r) && Outstanding(r, iter) && GetIteration(r, iter) == GetIteration(f, iter)
    ensures r.invValues == f.invValues && r.numPendingInputs == f.numPendingInputs && r.maxParallel == f.maxParallel
  {
    match RouteNextIteration(f, iter, isDead)
    case Drop => f
    case Defer => f.(nextIterRoots := f.nextIterRoots + [item])
    case StartNew =>
      var h := IncrementIteration(f, activate);
      AddOps(h, h.iterationCount, activate(item, h.iterationCount))
    case ToNext => AddOps(f, iter + 1, activate(item, iter + 1))
  }

  /** The NextIteration branch of PropagateOutputs: route the output, then
      finish the node's op in iteration iter. */
  function PropagateNextIteration(f: Frame, iter: nat, isDead: bool, item: nat, activate: (nat, nat) -> nat): (r: (Frame, bool))
    requires Valid(f) && Outstanding(f, iter)
    ensures Valid(r.0)
  {
    DecrementOutstandingOps(RouteOutput(f, iter, isDead, item, activate), iter, activate)
  }

  /** A deferred NextIteration output waits in the deferred roots until
      cleanup deletes an iteration; then it starts the next iteration, the
      only one started, and the roots are cleared. */
  lemma DeferredStartsLater(f: Frame, iter: nat, item: nat, activate: (nat, nat) -> nat)
    requires Valid(f) && Outstanding(f, iter)
    requires RouteNextIteration(f, iter, false) == Defer
    ensures var r := PropagateNextIteration(f, iter, false, item, activate).0;
            if r.iterationCount == f.iterationCount then r.nextIterRoots == f.nextIterRoots + [item]
            else r.iterationCount == f.iterationCount + 1 && r.nextIterRoots == [] && Oldest(r) > Oldest(f)
  {
    var g := f.(nextIterRoots := f.nextIterRoots + [item]);
    var it := GetIteration(g, iter);
    var h := Replaced(g, it.(outstandingOps := it.outstandingOps - 1));
    CleanupOldest(h, iter, activate);
    CleanupCounts(h, iter, activate);
    CleanupRoots(h, iter, activate);
  }

  // ---------------------------------------------------------------------
  // The ring of iteration slots

  /** The remainder of a by n, by repeated subtraction. */
  function Mod(a: nat, n: nat): (r: nat)
    requires n > 0
    ensures r < n
    decreases a
  {
    if a < n then a else Mod(a - n, n)
  }

  /** Mod is the remainder of Euclidean division. */
  lemma {:induction false} ModIsRemainder(a: nat, n: nat)
    requires n > 0
    ensures Mod(a, n) == a % n
    decreases a
  {
    if a >= n {
      ModIsRemainder(a - n, n);
      DivModUnique(a, n, (a - n) / n + 1, (a - n) % n);
    } else {
      DivModUnique(a, n, 0, a);
    }
  }

  /** Numbers less than n apart have different remainders modulo n. */
  lemma {:induction false} ModDistinct(a: nat, b: nat, n: nat)
    requires 0 < n && a < b < a + n
    ensures Mod(a, n) != Mod(b, n)
    decreases a
  {
    if a >= n {
      ModDistinct(a - n, b - n, n);
    } else if b >= n {
      assert Mod(b, n) == Mod(b - n, n) == b - n;
    }
  }

  /** Iterations numbered o, o + 1, and so on. */
  predicate Consecutive(live: seq<Iteration>, o: int)
  {
    forall k :: 0 <= k < |live| ==> live[k].iterNum == o + k
  }

  /** What slot s of n holds once SetIteration has stored the iterations
      of live in order, iteration i in slot i mod n: the last of them that
      maps to s, or nothing. */
  function SlotAt(live: seq<Iteration>, n: nat, s: nat): (r: Option<Iteration>)
    requires n > 0
  {
    if live == [] then None
    else if Mod(live[|live| - 1].iterNum, n) == s then Some(live[|live| - 1])
    else SlotAt(live[..|live| - 1], n, s)
  }

  /** The slots of a frame with max_parallel_iterations = f.maxParallel:
      one more slot than iterations may be outstanding. */
  ghost predicate Ring(slots: seq<Option<Iteration>>, f: Frame)
  {
    && f.maxParallel >= 1
    && |slots| == f.maxParallel + 1
    && forall s :: 0 <= s < |slots| ==> slots[s] == SlotAt(f.live, |slots|, s)
  }

  /** A slot that no iteration maps to is empty. */
  lemma {:induction false} SlotAtMiss(live: seq<Iteration>, n: nat, s: nat)
    requires n > 0
    requires forall k :: 0 <= k < |live| ==> Mod(live[k].iterNum, n) != s
    ensures SlotAt(live, n, s).None?
  {
    if live != [] {
      SlotAtMiss(live[..|live| - 1], n, s);
    }
  }

  /** With at most n consecutive iterations, iteration o + k is found in
      its slot: no later iteration has overwritten it. */
  lemma {:induction false} SlotAtHit(live: seq<Iteration>, n: nat, o: nat, k: nat)
    requires n > 0 && Consecutive(live, o) && |live| <= n && k < |live|
    ensures SlotAt(live, n, Mod(o + k, n)) == Some(live[k])
  {
    var m := |live| - 1;
    if k < m {
      assert Consecutive(live[..m], o);
      ModDistinct(o + k, o + m, n);
      SlotAtHit(live[..m], n, o, k);
    }
  }

  /** Storing a new newest iteration fills its slot. */
  lemma SlotAtAppend(live: seq<Iteration>, n: nat, x: Iteration, s: nat)
    requires n > 0
    ensures SlotAt(live + [x], n, s) == if Mod(x.iterNum, n) == s then Some(x) else SlotAt(live, n, s)
  {
    assert (live + [x])[..|live|] == live;
  }

  /** Deleting the oldest iteration empties its slot and no other. */
  lemma {:induction false} SlotAtRetire(live: seq<Iteration>, n: nat, o: nat, s: nat)
    requires n > 0 && Consecutive(live, o) && 0 < |live| <= n
    ensures SlotAt(live[1..], n, s) == if s == Mod(o, n) then None else SlotAt(live, n, s)
  {
    var m := |live| - 1;
    if m == 0 {
      assert live[1..] == [];
    } else {
      var rest := live[1..];
      assert rest[..m - 1] == live[..m][1..] && rest[m - 1] == live[m];
      assert Consecutive(live[..m], o);
      SlotAtRetire(live[..m], n, o, s);
      ModDistinct(o, o + m, n);
    }
  }

  /** New counts for an iteration change its slot and no other. */
  lemma {:induction false} SlotAtReplace(live: seq<Iteration>, n: nat, o: nat, k: nat, it: Iteration, s: nat)
    requires n > 0 && Consecutive(live, o) && |live| <= n && k < |live| && it.iterNum == o + k
    ensures SlotAt(live[k := it], n, s) == if s == Mod(it.iterNum, n) then Some(it) else SlotAt(live, n, s)
  {
    var m := |live| - 1;
    var after := live[k := it];
    var before := SlotAt(live[..m], n, s);
    assert SlotAt(live, n, s) == if Mod(live[m].iterNum, n) == s then Some(live[m]) else before;
    if k == m {
      assert after[..m] == live[..m] && after[m] == it;
      assert SlotAt(after, n, s) == if Mod(it.iterNum, n) == s then Some(it) else before;
    } else {
      assert after[..m] == live[..m][k := it] && after[m] == live[m];
      assert SlotAt(after, n, s) == if Mod(live[m].iterNum, n) == s then Some(live[m]) else SlotAt(live[..m][k := it], n, s);
      assert Consecutive(live[..m], o);
      SlotAtReplace(live[..m], n, o, k, it, s);
      ModDistinct(o + k, o + m, n);
    }
  }

  /** The first SetIteration of a frame: iteration 0 in slot 0 and every
      other slot empty. */
  lemma RingStart(slots: seq<Option<Iteration>>, f: Frame)
    requires Valid(f) && f.live == [Iteration(0, 0, 0)] && |slots| == f.maxParallel + 1
    requires slots[0] == Some(Iteration(0, 0, 0)) && forall s :: 0 < s < |slots| ==> slots[s].None?
    ensures Ring(slots, f)
  {
    forall s | 0 <= s < |slots| ensures slots[s] == SlotAt(f.live, |slots|, s) {
      SlotAtAppend([], |slots|, Iteration(0, 0, 0), s);
    }
  }

  /** Every outstanding iteration i is in slot i mod
      (max_parallel_iterations + 1). */
  lemma RingHolds(slots: seq<Option<Iteration>>, f: Frame, i: nat)
    requires Valid(f) && Ring(slots, f) && Outstanding(f, i)
    ensures slots[Mod(i, |slots|)] == Some(GetIteration(f, i))
  {
    SlotAtHit(f.live, f.maxParallel + 1, Oldest(f), i - Oldest(f));
  }

  /** The slot of the iteration before an outstanding one is empty exactly
      when that iteration is no longer outstanding, which is what
      IsIterationDone reads it for. */
  lemma RingPredecessor(slots: seq<Option<Iteration>>, f: Frame, i: nat)
    requires Valid(f) && Ring(slots, f) && Outstanding(f, i) && i > 0
    ensures slots[Mod(i - 1, |slots|)].None? <==> i - 1 < Oldest(f)
  {
    var n := f.maxParallel + 1;
    if i - 1 >= Oldest(f) {
      RingHolds(slots, f, i - 1);
    } else {
      forall k | 0 <= k < |f.live| ensures Mod(f.live[k].iterNum, n) != Mod(i - 1, n) {
        ModDistinct(i - 1, f.live[k].iterNum, n);
      }
      SlotAtMiss(f.live, n, Mod(i - 1, n));
    }
  }

  /** IsIterationDone as the frame reads it, from its slots. */
  predicate IsIterationDoneInSlots(slots: seq<Option<Iteration>>, numPendingInputs: int, it: Iteration)
    requires |slots| > 0
  {
    if it.outstandingOps == 0 && it.outstandingFrameCount == 0 then
      if it.iterNum == 0 then numPendingInputs == 0
      else slots[Mod(it.iterNum - 1, |slots|)].None?
    else false
  }

  /** Reading the predecessor's slot decides the same as asking whether
      the predecessor is outstanding. */
  lemma IsIterationDoneAgrees(slots: seq<Option<Iteration>>, f: Frame, i: nat)
    requires Valid(f) && Ring(slots, f) && Outstanding(f, i)
    ensures IsIterationDoneInSlots(slots, f.numPendingInputs, GetIteration(f, i)) <==> IsIterationDone(f, GetIteration(f, i))
  {
    if i > 0 {
      RingPredecessor(slots, f, i);
    }
  }

  /** The slot the next iteration goes to is free while fewer than
      max_parallel_iterations iterations are outstanding, so SetIteration
      never overwrites a live iteration. */
  lemma RingNextFree(slots: seq<Option<Iteration>>, f: Frame)
    requires Valid(f) && Ring(slots, f) && f.numOutstandingIterations < f.maxParallel
    ensures slots[Mod(f.iterationCount + 1, |slots|)].None?
  {
    var n := f.maxParallel + 1;
    forall k | 0 <= k < |f.live| ensures Mod(f.live[k].iterNum, n) != Mod(f.iterationCount + 1, n) {
      ModDistinct(f.live[k].iterNum, f.iterationCount + 1, n);
    }
    SlotAtMiss(f.live, n, Mod(f.iterationCount + 1, n));
  }

  /** New counts for an outstanding iteration, stored in its slot, keep
      the ring. */
  lemma RingReplace(slots: seq<Option<Iteration>>, f: Frame, it: Iteration)
    requires Valid(f) && Ring(slots, f) && Outstanding(f, it.iterNum)
    ensures Ring(slots[Mod(it.iterNum, |slots|) := Some(it)], Replaced(f, it))
  {
    var n := f.maxParallel + 1;
    var k := it.iterNum - Oldest(f);
    var r := Replaced(f, it);
    assert r.live == f.live[k := it] && r.maxParallel == f.maxParallel;
    assert Consecutive(f.live, Oldest(f));
    var t := slots[Mod(it.iterNum, n) := Some(it)];
    forall s | 0 <= s < n ensures t[s] == SlotAt(r.live, n, s) {
      SlotAtReplace(f.live, n, Oldest(f), k, it, s);
    }
  }

  /** Clearing the oldest iteration's slot keeps the ring of the frame
      without it. */
  lemma RingRetire(slots: seq<Option<Iteration>>, f: Frame)
    requires Valid(f) && Ring(slots, f) && f.numOutstandingIterations > 0
    ensures Ring(slots[Mod(Oldest(f), |slots|) := None], Retire(f))
  {
    var n := f.maxParallel + 1;
    var r := Retire(f);
    assert r.live == f.live[1..] && r.maxParallel == f.maxParallel;
    assert Consecutive(f.live, Oldest(f));
    var t := slots[Mod(Oldest(f), n) := None];
    forall s | 0 <= s < n ensures t[s] == SlotAt(r.live, n, s) {
      SlotAtRetire(f.live, n, Oldest(f), s);
    }
  }

  /** IncrementIteration stores the new iteration in the free slot and
      keeps the ring. */
  lemma RingIncrement(slots: seq<Option<Iteration>>, f: Frame, activate: (nat, nat) -> nat)
    requires Valid(f) && Ring(slots, f) && f.numOutstandingIterations < f.maxParallel
    ensures var r := IncrementIteration(f, activate);
            && slots[Mod(r.iterationCount, |slots|)].None?
            && Ring(slots[Mod(r.iterationCount, |slots|) := Some(GetIteration(r, r.iterationCount))], r)
  {
    RingNextFree(slots, f);
    var n := f.maxParallel + 1;
    var r := IncrementIteration(f, activate);
    var x := GetIteration(r, r.iterationCount);
    assert r.live == f.live + [x] && r.maxParallel == f.maxParallel;
    var t := slots[Mod(r.iterationCount, n) := Some(x)];
    forall s | 0 <= s < n ensures t[s] == SlotAt(r.live, n, s) {
      SlotAtAppend(f.live, n, x, s);
    }
  }

  /** A frame with no outstanding iterations holds nothing in its
      slots. */
  lemma RingEmpty(slots: seq<Option<Iteration>>, f: Frame)
    requires Valid(f) && Ring(slots, f) && f.numOutstandingIterations == 0
    ensures forall s :: 0 <= s < |slots| ==> slots[s].None?
  {
    assert f.live == [];
  }
}

// The frame and propagator objects, whose methods update their fields and
// slots in place, each proved against the value-level operation above.
module PropagatorState {
  import opened Common
  import opened FI = FrameIterations

  // ---------------------------------------------------------------------
  // FrameState

  /** One frame instance: its counters, its deferred roots, loop invariants
      and dead exits, and the iteration slots, with the outstanding
      iterations as ghost state. */
  class FrameState {
    const frameName: string
    const maxParallelIterations: nat
    const iterations: array<Option<Iteration>>
    var iterationCount: nat
    var numOutstandingIterations: int
    var numPendingInputs: int
    var deadExits: seq<nat>
    var nextIterRoots: seq<nat>
    var invValues: seq<nat>
    ghost var live: seq<Iteration>

    ghost function State(): Frame
      reads this
    {
      Frame(maxParallelIterations, iterationCount, numOutstandingIterations, numPendingInputs,
            live, deadExits, nextIterRoots, invValues)
    }

    ghost predicate Valid()
      reads this, iterations
    {
      FI.Valid(State()) && Ring(iterations[..], State())
    }

    /** A new frame (FrameState, InitializeFrameInfo and the first
        SetIteration): iteration 0 with no ops in slot 0, and the enclosing
        frame's inputs pending. */
    constructor (name: string, parallelIterations: nat, inputCount: int)
      requires parallelIterations >= 1
      ensures Valid() && State() == InitialFrame(parallelIterations, inputCount)
      ensures frameName == name && fresh(iterations)
    {
      frameName := name;
      maxParallelIterations := parallelIterations;
      iterations := new Option<Iteration>[parallelIterations + 1](_ => None);
      iterationCount := 0;
      numOutstandingIterations := 1;
      numPendingInputs := inputCount;
      deadExits, nextIterRoots, invValues := [], [], [];
      live := [];
      new;
      SetIteration(0, Some(Iteration(0, 0, 0)));
      live := [Iteration(0, 0, 0)];
      RingStart(iterations[..], State());
    }

    /** SetIteration: iteration iter goes to slot iter mod
        (max_parallel_iterations + 1), which must be empty unless the slot
        is being cleared. */
    method SetIteration(iter: nat, state: Option<Iteration>)
      requires iterations.Length == maxParallelIterations + 1
      requires state.Some? ==> iterations[Mod(iter, iterations.Length)].None?
      modifies iterations
      ensures iterations[..] == old(iterations[..])[Mod(iter, iterations.Length) := state]
    {
      var index := iter % (maxParallelIterations + 1);
      ModIsRemainder(iter, maxParallelIterations + 1);
      iterations[index] := state;
    }

    /** The iteration in an outstanding iteration's slot. */
    function GetIteration(iter: nat): (r: Iteration)
      reads this, iterations
      requires Valid() && Outstanding(State(), iter)
      ensures r == FI.GetIteration(State(), iter)
    {
      RingHolds(iterations[..], State(), iter);
      iterations[Mod(iter, iterations.Length)].value
    }

    /** IsIterationDone, which finds the predecessor in its slot. */
    function IsIterationDone(it: Iteration): (r: bool)
      reads this, iterations
      requires Valid() && Outstanding(State(), it.iterNum)
      requires it == FI.GetIteration(State(), it.iterNum)
      ensures r <==> FI.IsIterationDone(State(), it)
    {
      IsIterationDoneAgrees(iterations[..], State(), it.iterNum);
      IsIterationDoneInSlots(iterations[..], numPendingInputs, it)
    }

    /** IsFrameDone. */
    function IsFrameDone(): (r: bool)
      reads this
      ensures r <==> FI.IsFrameDone(State())
    {
      numPendingInputs == 0 && numOutstandingIterations == 0
    }

    /** ActivateNodes for each of items in the new iteration iter: the
        number of nodes they make ready, which become its outstanding
        ops. */
    method ActivateEach(items: seq<nat>, iter: nat, activate: (nat, nat) -> nat) returns (ops: nat)
      ensures ops == Activations(items, iter, activate)
    {
      ops := 0;
      var k := 0;
      while k < |items|
        invariant 0 <= k <= |items|
        invariant ops == Activations(items[..k], iter, activate)
      {
        assert items[..k + 1][..k] == items[..k];
        ops := ops + activate(items[k], iter);
        k := k + 1;
      }
      assert items[..k] == items;
    }

    /** ActivateNexts: the deferred roots are activated in iteration iter
        and then cleared. */
    method ActivateNexts(iter: nat, activate: (nat, nat) -> nat) returns (ops: nat)
      modifies this
      ensures ops == Activations(old(nextIterRoots), iter, activate)
      ensures State() == old(State()).(nextIterRoots := [])
    {
      ops := ActivateEach(nextIterRoots, iter, activate);
      nextIterRoots := [];
    }

    /** ActivateLoopInvs: the loop invariants are activated in iteration
        iter. */
    method ActivateLoopInvs(iter: nat, activate: (nat, nat) -> nat) returns (ops: nat)
      ensures ops == Activations(invValues, iter, activate)
    {
      ops := ActivateEach(invValues, iter, activate);
    }

    /** IncrementIteration: starts the next iteration in its free slot and
        returns its number. */
    method IncrementIteration(activate: (nat, nat) -> nat) returns (next: nat)
      requires Valid() && numOutstandingIterations < maxParallelIterations
      modifies this, iterations
      ensures Valid() && State() == FI.IncrementIteration(old(State()), activate)
      ensures next == iterationCount
    {
      ghost var f := State();
      ghost var r := FI.IncrementIteration(f, activate);
      RingIncrement(iterations[..], f, activate);
      iterationCount := iterationCount + 1;
      next := iterationCount;
      numOutstandingIterations := numOutstandingIterations + 1;
      deadExits := [];
      var nexts := ActivateNexts(next, activate);
      var invs := ActivateLoopInvs(next, activate);
      ghost var s0 := iterations[..];
      assert s0 == old(iterations[..]);
      var it := Iteration(next, nexts + invs, 0);
      assert it == FI.GetIteration(r, r.iterationCount);
      SetIteration(next, Some(it));
      assert iterations[..] == s0[Mod(next, iterations.Length) := Some(it)];
      live := r.live;
      assert State() == r;
      assert Ring(iterations[..], r);
    }

    /** Stores new counts for an outstanding iteration in its slot (the
        in-place update of its IterationState). */
    method Update(it: Iteration)
      requires Valid() && Outstanding(State(), it.iterNum)
      modifies this, iterations
      ensures Valid() && State() == Replaced(old(State()), it)
    {
      ghost var f := State();
      ghost var r := Replaced(f, it);
      RingReplace(iterations[..], f, it);
      var index := it.iterNum % (maxParallelIterations + 1);
      ModIsRemainder(it.iterNum, maxParallelIterations + 1);
      iterations[index] := Some(it);
      assert iterations[..] == old(iterations[..])[Mod(it.iterNum, iterations.Length) := Some(it)];
      live := r.live;
      assert State() == r;
    }

    /** The loop body's deletion of the oldest iteration: its slot is
        cleared and one iteration fewer is outstanding. */
    method DeleteIteration(iter: nat)
      requires Valid() && numOutstandingIterations > 0 && iter == Oldest(State())
      modifies this, iterations
      ensures Valid() && State() == Retire(old(State()))
    {
      ghost var f := State();
      ghost var r := Retire(f);
      RingRetire(iterations[..], f);
      SetIteration(iter, None);
      assert iterations[..] == old(iterations[..])[Mod(iter, iterations.Length) := None];
      numOutstandingIterations := numOutstandingIterations - 1;
      live := r.live;
      assert State() == r;
    }

    /** One round of the cleanup loop on a done iteration: it is deleted
        and the deferred iteration, if any, starts. */
    method CleanupStep(curr: nat, activate: (nat, nat) -> nat)
      requires Valid() && Outstanding(State(), curr) && DeletesNext(State(), curr)
      modifies this, iterations
      ensures Valid() && State() == DeleteOldest(old(State()), activate)
      ensures Outstanding(State(), curr + 1) || curr + 1 == iterationCount + 1
      ensures CleanupFrom(State(), curr + 1, activate).0 == CleanupFrom(old(State()), curr, activate).0
      ensures CleanupMeasure(State(), curr + 1) < CleanupMeasure(old(State()), curr)
    {
      CleanupAdvance(State(), curr, activate);
      IsIterationDoneMeans(State(), curr);
      DeleteIteration(curr);
      if nextIterRoots != [] {
        var _ := IncrementIteration(activate);
      }
    }

    /** The cleanup loop's invariant: the frame is valid, curr is outstanding
        or one past the newest iteration, it is curr's state, and cleanup
        from curr reaches the same frame as cleanup from the start. */
    ghost predicate Cleaning(curr: nat, it: Iteration, target: Frame, activate: (nat, nat) -> nat)
      reads this, iterations
    {
      && Valid()
      && (Outstanding(State(), curr) || curr == iterationCount + 1)
      && (curr <= iterationCount ==> it == FI.GetIteration(State(), curr))
      && CleanupFrom(State(), curr, activate).0 == target
    }

    /** CleanupIterations from an outstanding iteration: deletes done
        iterations in order, starting a deferred iteration after each
        deletion, and returns whether the frame is done. */
    method CleanupIterations(iter: nat, activate: (nat, nat) -> nat) returns (done: bool)
      requires Valid() && Outstanding(State(), iter)
      modifies this, iterations
      ensures Valid() && State() == CleanupFrom(old(State()), iter, activate).0
      ensures done <==> FI.IsFrameDone(State())
    {
      ghost var target := CleanupFrom(State(), iter, activate).0;
      var curr: nat := iter;
      var it := GetIteration(curr);
      while curr <= iterationCount && IsIterationDone(it)
        invariant Cleaning(curr, it, target, activate)
        decreases CleanupMeasure(State(), curr)
      {
        CleanupStep(curr, activate);
        curr := curr + 1;
        if curr <= iterationCount {
          it := GetIteration(curr);
        }
      }
      CleanupUnfold(State(), curr, activate);
      done := IsFrameDone();
    }

    /** DecrementOutstandingOpsLocked: one op of iteration iter finishes;
        cleanup runs when that was the last one. Returns whether the frame
        is done. */
    method DecrementOutstandingOps(iter: nat, activate: (nat, nat) -> nat) returns (done: bool)
      requires Valid() && Outstanding(State(), iter)
      modifies this, iterations
      ensures Valid() && (State(), done) == FI.DecrementOutstandingOps(old(State()), iter, activate)
    {
      var it := GetIteration(iter);
      it := it.(outstandingOps := it.outstandingOps - 1);
      Update(it);
      if it.outstandingOps != 0 {
        return false;
      }
      done := CleanupIterations(iter, activate);
    }

    /** The frame's part of CleanupFramesIterations: a child frame of
        iteration iter is done. Returns whether this frame is done too. */
    method ChildFrameDone(iter: nat, activate: (nat, nat) -> nat) returns (done: bool)
      requires Valid() && Outstanding(State(), iter)
      modifies this, iterations
      ensures Valid() && (State(), done) == FI.ChildFrameDone(old(State()), iter, activate)
    {
      ghost var f := State();
      var it := GetIteration(iter);
      Update(it.(outstandingFrameCount := it.outstandingFrameCount - 1));
      ghost var g := State();
      assert g == Replaced(f, it.(outstandingFrameCount := it.outstandingFrameCount - 1));
      done := CleanupIterations(iter, activate);
      assert State() == CleanupFrom(g, iter, activate).0;
    }

    /** A child frame is created in iteration iter. */
    method AddChildFrame(iter: nat)
      requires Valid() && Outstanding(State(), iter)
      modifies this, iterations
      ensures Valid() && State() == FI.AddChildFrame(old(State()), iter)
    {
      var it := GetIteration(iter);
      Update(it.(outstandingFrameCount := it.outstandingFrameCount + 1));
    }

    /** The routing part of the NextIteration branch of PropagateOutputs
        for a node run in iteration iter; item is the node and
        activate(item, i) the number of successors ActivateNodes makes
        ready in iteration i. */
    method RouteOutput(iter: nat, isDead: bool, item: nat, activate: (nat, nat) -> nat)
      requires Valid() && Outstanding(State(), iter)
      modifies this, iterations
      ensures Valid() && State() == FI.RouteOutput(old(State()), iter, isDead, item, activate)
    {
      ghost var f := State();
      ghost var route := RouteNextIteration(f, iter, isDead);
      if isDead {
        return;
      }
      if iter == iterationCount && numOutstandingIterations == maxParallelIterations {
        nextIterRoots := nextIterRoots + [item];
        assert State() == f.(nextIterRoots := f.nextIterRoots + [item]);
        return;
      }
      var outputIter: nat;
      if iter == iterationCount {
        outputIter := IncrementIteration(activate);
      } else {
        outputIter := iter + 1;
      }
      AddOps(outputIter, activate(item, outputIter));
    }

    /** ActivateNodes' effect on the counters: n more ops outstanding in
        iteration i. */
    method AddOps(i: nat, n: nat)
      requires Valid() && Outstanding(State(), i)
      modifies this, iterations
      ensures Valid() && State() == FI.AddOps(old(State()), i, n)
    {
      var it := GetIteration(i);
      Update(it.(outstandingOps := it.outstandingOps + n));
    }

    /** The NextIteration branch of PropagateOutputs: the output is routed,
        then the node's op in iteration iter finishes. Returns whether the
        frame is done. */
    method PropagateNextIteration(iter: nat, isDead: bool, item: nat, activate: (nat, nat) -> nat) returns (done: bool)
      requires Valid() && Outstanding(State(), iter)
      modifies this, iterations
      ensures Valid() && (State(), done) == FI.PropagateNextIteration(old(State()), iter, isDead, item, activate)
    {
      RouteOutput(iter, isDead, item, activate);
      done := DecrementOutstandingOps(iter, activate);
    }
  }

  // ---------------------------------------------------------------------
  // Frame names

  /** The name of the child frame that an Enter node with frame_name
      enterName starts in iteration iter of the frame named parent. */
  function ChildName(parent: string, iter: nat, enterName: string): (r: string)
    ensures |r| == |parent| + |NatToString(iter)| + |enterName| + 2
  {
    parent + ";" + NatToString(iter) + ";" + enterName
  }

  /** The length of the part of s after its last ';' (all of s when it
      has none). */
  function AfterLastSep(s: string): nat
  {
    if s == [] || s[|s| - 1] == ';' then 0 else AfterLastSep(s[..|s| - 1]) + 1
  }

  lemma {:induction false} AfterLastSepOf(a: string, b: string)
    requires ';' !in b
    ensures AfterLastSep(a + ";" + b) == |b|
  {
    if b != [] {
      var m := |b| - 1;
      assert (a + ";" + b)[..|a| + 1 + m] == a + ";" + b[..m];
      AfterLastSepOf(a, b[..m]);
    }
  }

  /** A name that ends in a part without ';' splits uniquely at its last
      ';'. */
  lemma SplitAtLast(a: string, b: string, c: string, d: string)
    requires a + ";" + b == c + ";" + d && ';' !in b && ';' !in d
    ensures a == c && b == d
  {
    var s := a + ";" + b;
    AfterLastSepOf(a, b);
    AfterLastSepOf(c, d);
    assert a == s[..|a|] && c == (c + ";" + d)[..|c|];
    assert b == s[|a| + 1..] && d == (c + ";" + d)[|c| + 1..];
  }

  /** Frames started by different Enter names, or in different
      iterations, or from different parents, get different names, as long
      as Enter frame names hold no ';'. */
  lemma ChildNameInjective(p1: string, i1: nat, e1: string, p2: string, i2: nat, e2: string)
    requires ';' !in e1 && ';' !in e2
    requires ChildName(p1, i1, e1) == ChildName(p2, i2, e2)
    ensures p1 == p2 && i1 == i2 && e1 == e2
  {
    var d1, d2 := NatToString(i1), NatToString(i2);
    assert forall k :: 0 <= k < |d1| ==> IsDigit(d1[k]) && d1[k] != ';';
    assert forall k :: 0 <= k < |d2| ==> IsDigit(d2[k]) && d2[k] != ';';
    SplitAtLast(p1 + ";" + d1, e1, p2 + ";" + d2, e2);
    SplitAtLast(p1, d1, p2, d2);
    ParseNatToString(i1);
    ParseNatToString(i2);
  }

  // ---------------------------------------------------------------------
  // PropagatorState

  /** The executor's table of outstanding frames, keyed by name, with the
      root frame (whose name is empty and which runs one iteration at a
      time). */
  class PropagatorState {
    const rootFrame: FrameState
    var outstandingFrames: map<string, FrameState>

    /** Every outstanding frame is filed under its own name. */
    predicate Named()
      reads this
    {
      forall name :: name in outstandingFrames ==> outstandingFrames[name].frameName == name
    }

    /** The root frame with iteration 0, registered under the empty
        name; rootInputCount is the root frame's input count. */
    constructor (rootInputCount: int)
      ensures Named() && outstandingFrames == map["" := rootFrame]
      ensures rootFrame.Valid() && rootFrame.State() == InitialFrame(1, rootInputCount)
      ensures rootFrame.frameName == ""
    {
      var root := new FrameState("", 1, rootInputCount);
      rootFrame := root;
      outstandingFrames := map["" := root];
    }

    /** FindOrCreateChildFrame for an Enter node with frame_name enterName
        and parallel_iterations parallelIterations, run in iteration iter
        of frame. A frame already filed under the child name is returned
        and nothing changes. Otherwise a new frame with iteration 0 is
        filed under that name, and iteration iter of frame counts one more
        outstanding child frame. */
    method FindOrCreateChildFrame(frame: FrameState, iter: nat, enterName: string, parallelIterations: nat, inputCount: int)
      returns (child: FrameState)
      requires Named() && frame.Valid() && Outstanding(frame.State(), iter)
      requires parallelIterations >= 1
      modifies this, frame, frame.iterations
      ensures Named() && frame.Valid()
      ensures var name := ChildName(frame.frameName, iter, enterName);
              && child.frameName == name
              && outstandingFrames.Keys == old(outstandingFrames).Keys + {name}
              && (name in old(outstandingFrames) ==>
                    && child == old(outstandingFrames)[name]
                    && outstandingFrames == old(outstandingFrames)
                    && frame.State() == old(frame.State()))
              && (name !in old(outstandingFrames) ==>
                    && fresh(child) && fresh(child.iterations)
                    && child.Valid() && child.State() == InitialFrame(parallelIterations, inputCount)
                    && outstandingFrames == old(outstandingFrames)[name := child]
                    && frame.State() == FI.AddChildFrame(old(frame.State()), iter))
    {
      var name := ChildName(frame.frameName, iter, enterName);
      if name in outstandingFrames {
        child := outstandingFrames[name];
        return;
      }
      child := new FrameState(name, parallelIterations, inputCount);
      frame.AddChildFrame(iter);
      outstandingFrames := outstandingFrames[name := child];
    }
  }
}
