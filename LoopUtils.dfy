// LoopUtils: the bounds of an unrolled loop and of its cleanup loop,
// promotion of a single-iteration loop, and the statement grouping and
// sweep of the loop body skew.
module LoopUtils {
  import opened Common
  import opened AffineExpr

  /** What the utilities read of a for statement: the results of its lower
      bound map, its trip count as an affine expression when there is one,
      its constant trip count when known, and its step. */
  datatype ForLoop = ForLoop(lbResults: seq<Expr>, tripCount: Option<Expr>,
                             constantTripCount: Option<nat>, step: nat)

  /** A statement of a loop body: an operation or a nested loop. */
  datatype Stmt = Op(id: int) | For(loop: ForLoop, body: seq<Stmt>)

  // ---------------------------------------------------------------------
  // Unrolled and cleanup bounds

  /** a - b on affine expressions is a + b * -1; subtracting an integer
      constant c adds the constant -c instead. */
  function Minus(a: Expr, b: Expr): Expr
  {
    Binary(Add, a, Binary(Mul, b, Constant(-1)))
  }

  /** getUnrolledLoopUpperBound: lb + (tc - tc mod uf - 1) * step, or Null
      for a lower bound map without exactly one result or a trip count that
      is not affine. */
  function GetUnrolledLoopUpperBound(loop: ForLoop, unrollFactor: nat): (r: Option<Expr>)
    ensures r.None? <==> |loop.lbResults| != 1 || loop.tripCount.None?
  {
    if |loop.lbResults| != 1 then None
    else if loop.tripCount.None? then None
    else
      var lb := loop.lbResults[0];
      var tc := loop.tripCount.value;
      Some(Binary(Add, lb, Binary(Mul, Binary(Add, Minus(tc, Binary(Mod, tc, Constant(unrollFactor))), Constant(-1)),
                                  Constant(loop.step))))
  }

  /** getCleanupLoopLowerBound: lb + (tc - tc mod uf) * step, with the same
      Null cases. */
  function GetCleanupLoopLowerBound(loop: ForLoop, unrollFactor: nat): (r: Option<Expr>)
    ensures r.None? <==> |loop.lbResults| != 1 || loop.tripCount.None?
  {
    if |loop.lbResults| != 1 then None
    else if loop.tripCount.None? then None
    else
      var lb := loop.lbResults[0];
      var tc := loop.tripCount.value;
      Some(Binary(Add, lb, Binary(Mul, Minus(tc, Binary(Mod, tc, Constant(unrollFactor))), Constant(loop.step))))
  }

  /** The values of both bounds, for lower bound lb and trip count tc. */
  lemma UnrolledBoundsValues(loop: ForLoop, unrollFactor: nat, dims: seq<int>, syms: seq<int>, lb: int, tc: int)
    requires |loop.lbResults| == 1 && loop.tripCount.Some? && unrollFactor > 0
    requires Eval(loop.lbResults[0], dims, syms) == Some(lb)
    requires Eval(loop.tripCount.value, dims, syms) == Some(tc)
    ensures Eval(GetUnrolledLoopUpperBound(loop, unrollFactor).value, dims, syms) ==
      Some(lb + (tc - ModInt(tc, unrollFactor) - 1) * loop.step)
    ensures Eval(GetCleanupLoopLowerBound(loop, unrollFactor).value, dims, syms) ==
      Some(lb + (tc - ModInt(tc, unrollFactor)) * loop.step)
  {
    var tcE := loop.tripCount.value;
    var m := Binary(Mod, tcE, Constant(unrollFactor));
    var mv := ModInt(tc, unrollFactor);
    assert Eval(m, dims, syms) == Some(mv);
    assert Eval(Binary(Mul, m, Constant(-1)), dims, syms) == Some(mv * -1);
    var k := Minus(tcE, m);
    assert Eval(k, dims, syms) == Some(tc - mv);
    assert Eval(Binary(Add, k, Constant(-1)), dims, syms) == Some(tc - mv - 1);
    var lbE := loop.lbResults[0];
    assert Eval(Binary(Mul, Binary(Add, k, Constant(-1)), Constant(loop.step)), dims, syms) == Some((tc - mv - 1) * loop.step);
    assert Eval(Binary(Mul, k, Constant(loop.step)), dims, syms) == Some((tc - mv) * loop.step);
  }

  /** The cleanup loop starts one step after the last iteration of the
      unrolled loop. */
  lemma CleanupFollowsUnrolled(loop: ForLoop, unrollFactor: nat, dims: seq<int>, syms: seq<int>, lb: int, tc: int)
    requires |loop.lbResults| == 1 && loop.tripCount.Some? && unrollFactor > 0
    requires Eval(loop.lbResults[0], dims, syms) == Some(lb)
    requires Eval(loop.tripCount.value, dims, syms) == Some(tc)
    ensures var ub := Eval(GetUnrolledLoopUpperBound(loop, unrollFactor).value, dims, syms);
      ub.Some? && Eval(GetCleanupLoopLowerBound(loop, unrollFactor).value, dims, syms) == Some(ub.value + loop.step)
  {
    UnrolledBoundsValues(loop, unrollFactor, dims, syms, lb, tc);
    var k := tc - ModInt(tc, unrollFactor);
    assert (k - 1) * loop.step + loop.step == k * loop.step;
  }

  /** For a non-negative trip count the unrolled loop runs a multiple of the
      unroll factor of iterations and the cleanup loop fewer than the
      factor. */
  lemma UnrolledIterationSplit(tc: int, unrollFactor: nat)
    requires tc >= 0 && unrollFactor > 0
    ensures Divides(unrollFactor, tc - ModInt(tc, unrollFactor))
    ensures 0 <= ModInt(tc, unrollFactor) < unrollFactor
    ensures 0 <= tc - ModInt(tc, unrollFactor) <= tc
  {
    ModIntPositive(tc, unrollFactor);
    MinusModDivides(tc, unrollFactor);
  }

  /** For a positive divisor the affine mod is Euclidean %. */
  lemma ModIntPositive(a: int, b: int)
    requires b > 0
    ensures ModInt(a, b) == a % b
  {
    assert FloorDivInt(a, b) == a / b;
  }

  lemma MinusModDivides(a: int, b: int)
    requires b > 0
    ensures Divides(b, a - a % b) && 0 <= a % b < b
    ensures a >= 0 ==> a % b <= a
  {
    var q := a / b;
    assert a - a % b == q * b;
    DivModUnique(q * b, b, q, 0);
    if a >= 0 {
      assert q >= 0;
      assert q * b >= 0;
    }
  }

  /** An unroll factor of zero leaves the bounds undefined (a modulo by
      zero). */
  lemma ZeroUnrollFactorUndefined(loop: ForLoop, dims: seq<int>, syms: seq<int>)
    requires |loop.lbResults| == 1 && loop.tripCount.Some?
    ensures Eval(GetUnrolledLoopUpperBound(loop, 0).value, dims, syms).None?
    ensures Eval(GetCleanupLoopLowerBound(loop, 0).value, dims, syms).None?
  {
    var tcE := loop.tripCount.value;
    var m := Binary(Mod, tcE, Constant(0));
    assert Eval(m, dims, syms).None?;
    assert Eval(Binary(Mul, m, Constant(-1)), dims, syms).None?;
    var k := Minus(tcE, m);
    assert Eval(k, dims, syms).None?;
    assert Eval(Binary(Mul, k, Constant(loop.step)), dims, syms).None?;
    assert Eval(Binary(Add, k, Constant(-1)), dims, syms).None?;
    assert Eval(Binary(Mul, Binary(Add, k, Constant(-1)), Constant(loop.step)), dims, syms).None?;
  }

  // ---------------------------------------------------------------------
  // promoteIfSingleIteration

  /** The operations of a statement list in program order, nested loops
      included. */
  function Ops(stmts: seq<Stmt>): seq<int>
    decreases stmts
  {
    if |stmts| == 0 then [] else OpsOf(stmts[0]) + Ops(stmts[1..])
  }

  function OpsOf(s: Stmt): seq<int>
    decreases s
  {
    match s
    case Op(id) => [id]
    case For(_, body) => Ops(body)
  }

  lemma {:induction false} OpsAppend(a: seq<Stmt>, b: seq<Stmt>)
    ensures Ops(a + b) == Ops(a) + Ops(b)
    decreases |a|
  {
    if |a| > 0 {
      assert (a + b)[0] == a[0];
      assert (a + b)[1..] == a[1..] + b;
      OpsAppend(a[1..], b);
    } else {
      assert a + b == b;
    }
  }

  /** promoteIfSingleIteration on the loop at position pos of a block: only
      a constant trip count of one and a single-result lower bound promote,
      and promotion splices the loop body into the block in its place. */
  function PromoteIfSingleIteration(block: seq<Stmt>, pos: nat): (r: (bool, seq<Stmt>))
    requires pos < |block| && block[pos].For?
    ensures r.0 <==> block[pos].loop.constantTripCount == Some(1) && |block[pos].loop.lbResults| == 1
    ensures !r.0 ==> r.1 == block
    ensures r.0 ==> |r.1| == |block| - 1 + |block[pos].body|
  {
    var loop := block[pos].loop;
    if loop.constantTripCount != Some(1) then (false, block)
    else if |loop.lbResults| != 1 then (false, block)
    else (true, block[..pos] + block[pos].body + block[pos + 1..])
  }

  /** Promotion keeps every operation and their program order. */
  lemma PromotePreservesOps(block: seq<Stmt>, pos: nat)
    requires pos < |block| && block[pos].For?
    ensures Ops(PromoteIfSingleIteration(block, pos).1) == Ops(block)
  {
    var r := PromoteIfSingleIteration(block, pos);
    if r.0 {
      var pre, body, post := block[..pos], block[pos].body, block[pos + 1..];
      assert r.1 == (pre + body) + post;
      assert block == (pre + [block[pos]]) + post;
      OpsAppend(pre + body, post);
      OpsAppend(pre, body);
      OpsAppend(pre + [block[pos]], post);
      OpsAppend(pre, [block[pos]]);
      OpsSingle(block[pos]);
    }
  }

  lemma OpsSingle(s: Stmt)
    ensures Ops([s]) == OpsOf(s)
  {
    assert [s][1..] == [];
  }

  // ---------------------------------------------------------------------
  // stmtBodySkew: grouping by delay

  /** The largest delay, 0 for none. */
  function MaxDelay(delays: seq<nat>): (r: nat)
    ensures forall i :: 0 <= i < |delays| ==> delays[i] <= r
    ensures |delays| > 0 ==> exists i :: 0 <= i < |delays| && delays[i] == r
  {
    if |delays| == 0 then 0
    else
      var m := MaxDelay(delays[..|delays| - 1]);
      if delays[|delays| - 1] > m then delays[|delays| - 1] else m
  }

  /** The statements with delay d, in body order. */
  function Group<T>(body: seq<T>, delays: seq<nat>, d: nat): seq<T>
    requires |delays| == |body|
  {
    if |body| == 0 then []
    else
      var n := |body| - 1;
      Group(body[..n], delays[..n], d) + (if delays[n] == d then [body[n]] else [])
  }

  /** How many statements the groups of delays below count hold. */
  function GroupSizes<T>(body: seq<T>, delays: seq<nat>, count: nat): nat
    requires |delays| == |body|
  {
    if count == 0 then 0
    else GroupSizes(body, delays, count - 1) + |Group(body, delays, count - 1)|
  }

  lemma {:induction false} GroupSizesLast<T>(body: seq<T>, delays: seq<nat>, count: nat)
    requires |delays| == |body| > 0
    ensures GroupSizes(body, delays, count) ==
      GroupSizes(body[..|body| - 1], delays[..|body| - 1], count) + (if delays[|body| - 1] < count then 1 else 0)
  {
    if count > 0 {
      GroupSizesLast(body, delays, count - 1);
    }
  }

  lemma {:induction false} GroupSizesEmpty<T>(body: seq<T>, delays: seq<nat>, count: nat)
    requires |delays| == |body| == 0
    ensures GroupSizes(body, delays, count) == 0
  {
    if count > 0 {
      GroupSizesEmpty(body, delays, count - 1);
    }
  }

  /** The groups of all delays together hold as many statements as the
      body. */
  lemma {:induction false} GroupsPartitionBody<T>(body: seq<T>, delays: seq<nat>, count: nat)
    requires |delays| == |body|
    requires forall i :: 0 <= i < |delays| ==> delays[i] < count
    ensures GroupSizes(body, delays, count) == |body|
  {
    if |body| == 0 {
      GroupSizesEmpty(body, delays, count);
    } else {
      var n := |body| - 1;
      GroupSizesLast(body, delays, count);
      GroupsPartitionBody(body[..n], delays[..n], count);
    }
  }

  /** A group holds only statements of its delay, in body order. */
  lemma {:induction false} GroupMembers<T>(body: seq<T>, delays: seq<nat>, d: nat, k: nat)
    requires |delays| == |body| && k < |Group(body, delays, d)|
    ensures exists i :: 0 <= i < |body| && body[i] == Group(body, delays, d)[k] && delays[i] == d
  {
    var n := |body| - 1;
    var g' := Group(body[..n], delays[..n], d);
    if k < |g'| {
      GroupMembers(body[..n], delays[..n], d, k);
      var i :| 0 <= i < n && body[..n][i] == g'[k] && delays[..n][i] == d;
      assert body[i] == Group(body, delays, d)[k];
    } else {
      assert body[n] == Group(body, delays, d)[k];
    }
  }

  method GroupByDelay(body: seq<Stmt>, delays: seq<nat>, maxDelay: nat) returns (groups: seq<seq<Stmt>>)
    requires |delays| == |body|
    requires forall i :: 0 <= i < |delays| ==> delays[i] <= maxDelay
    ensures |groups| == maxDelay + 1
    ensures forall d :: 0 <= d < |groups| ==> groups[d] == Group(body, delays, d)
  {
    groups := seq(maxDelay + 1, d => []);
    for pos := 0 to |body|
      invariant |groups| == maxDelay + 1
      invariant forall d :: 0 <= d < |groups| ==> groups[d] == Group(body[..pos], delays[..pos], d)
    {
      var delay := delays[pos];
      groups := groups[delay := groups[delay] + [body[pos]]];
      assert body[..pos + 1][..pos] == body[..pos];
      assert delays[..pos + 1][..pos] == delays[..pos];
    }
    assert body[..|body|] == body && delays[..|body|] == delays;
  }

  // ---------------------------------------------------------------------
  // stmtBodySkew: the sweep

  /** A generated loop: the shifts of its lower and upper bound, and the
      delays of the groups it runs, from the queued groups of the sweep. */
  datatype Chunk = Chunk(lbDelay: nat, ubDelay: nat, queue: seq<nat>)

  /** generateLoop's loop is promoted away, and null returned, when its
      constant trip count is one and the lower bound has one result. */
  predicate Promoted(loop: ForLoop, c: Chunk)
    requires loop.step > 0
  {
    |loop.lbResults| == 1 && c.lbDelay < c.ubDelay && (c.ubDelay - c.lbDelay + loop.step - 1) / loop.step == 1
  }

  /** The first generated loop that is not promoted (the prologue). */
  function FirstUnpromoted(loop: ForLoop, chunks: seq<Chunk>): (r: Option<nat>)
    requires loop.step > 0
    ensures r.Some? ==>
      r.value < |chunks| && !Promoted(loop, chunks[r.value]) &&
      forall i :: 0 <= i < r.value ==> Promoted(loop, chunks[i])
    ensures r.None? ==> forall i :: 0 <= i < |chunks| ==> Promoted(loop, chunks[i])
  {
    if |chunks| == 0 then None
    else
      var prefix := FirstUnpromoted(loop, chunks[..|chunks| - 1]);
      if prefix.Some? then prefix
      else if Promoted(loop, chunks[|chunks| - 1]) then None
      else Some(|chunks| - 1)
  }

  /** A queue of delays of non-empty groups. */
  predicate GoodQueue(groups: seq<seq<Stmt>>, q: seq<nat>)
  {
    forall j :: 0 <= j < |q| ==> q[j] < |groups| && groups[q[j]] != []
  }

  /** The chunk shape the sweep guarantees, chunk by chunk: each chunk runs
      a non-empty list of delays of non-empty groups, and each
      chunk starts where the previous one ended. */
  predicate WellFormedChunks(groups: seq<seq<Stmt>>, chunks: seq<Chunk>)
    decreases |chunks|
  {
    if |chunks| == 0 then true
    else
      var n := |chunks| - 1;
      && WellFormedChunks(groups, chunks[..n])
      && |chunks[n].queue| > 0 && GoodQueue(groups, chunks[n].queue)
      && (n > 0 ==> chunks[n].lbDelay == chunks[n - 1].ubDelay)
  }

  /** The chunk-by-chunk definition says the same as the quantified one. */
  lemma {:induction false} WellFormedChunksMeaning(groups: seq<seq<Stmt>>, chunks: seq<Chunk>)
    ensures WellFormedChunks(groups, chunks) <==>
      && (forall i :: 0 <= i < |chunks| ==> |chunks[i].queue| > 0 && GoodQueue(groups, chunks[i].queue))
      && (forall i :: 0 < i < |chunks| ==> chunks[i].lbDelay == chunks[i - 1].ubDelay)
    decreases |chunks|
  {
    if |chunks| > 0 {
      var n := |chunks| - 1;
      var prefix := chunks[..n];
      WellFormedChunksMeaning(groups, prefix);
      assert forall i :: 0 <= i < n ==> prefix[i] == chunks[i];
    }
  }

  /** Some chunk runs the group of delay e. */
  predicate Covered(chunks: seq<Chunk>, e: nat)
  {
    exists i :: 0 <= i < |chunks| && e in chunks[i].queue
  }

  function Elements(q: seq<nat>): set<nat>
  {
    set x | x in q
  }

  /** The delays below upto whose groups have statements. */
  function NonEmptyDelays(groups: seq<seq<Stmt>>, upto: nat): set<nat>
  {
    set e | 0 <= e < upto && e < |groups| && groups[e] != []
  }

  /** The delays of the groups some chunk runs, chunk by chunk. */
  function ChunkDelays(chunks: seq<Chunk>): set<nat>
    decreases |chunks|
  {
    if |chunks| == 0 then {}
    else ChunkDelays(chunks[..|chunks| - 1]) + Elements(chunks[|chunks| - 1].queue)
  }

  lemma {:induction false} ChunkDelaysMeaning(chunks: seq<Chunk>, e: nat)
    ensures e in ChunkDelays(chunks) <==> Covered(chunks, e)
    decreases |chunks|
  {
    if |chunks| > 0 {
      var n := |chunks| - 1;
      var prefix := chunks[..n];
      ChunkDelaysMeaning(prefix, e);
      if Covered(prefix, e) {
        var i :| 0 <= i < n && e in prefix[i].queue;
        assert chunks[i] == prefix[i];
      }
      if Covered(chunks, e) && e !in chunks[n].queue {
        var i :| 0 <= i < |chunks| && e in chunks[i].queue;
        assert prefix[i] == chunks[i];
      }
    }
  }

  /** No group below delay e has statements. */
  predicate NoneBelow(groups: seq<seq<Stmt>>, e: nat)
  {
    forall k :: 0 <= k < e && k < |groups| ==> groups[k] == []
  }

  lemma WellFormedAppend(groups: seq<seq<Stmt>>, chunks: seq<Chunk>, c: Chunk)
    requires WellFormedChunks(groups, chunks)
    requires |c.queue| > 0 && GoodQueue(groups, c.queue)
    requires chunks != [] ==> c.lbDelay == chunks[|chunks| - 1].ubDelay
    ensures WellFormedChunks(groups, chunks + [c])
    ensures ChunkDelays(chunks + [c]) == ChunkDelays(chunks) + Elements(c.queue)
  {
    var all := chunks + [c];
    assert all[..|chunks|] == chunks;
  }

  lemma QueueExtend(groups: seq<seq<Stmt>>, q: seq<nat>, d: nat)
    requires GoodQueue(groups, q) && d < |groups| && groups[d] != []
    requires forall j :: 0 <= j < |q| ==> q[j] < d
    ensures GoodQueue(groups, q + [d])
  {
  }

  /** The sweep over the groups in delay order: loops are generated for the
      queued groups whenever a new non-empty group starts, and the groups
      still queued at the end get one loop each, in order. The prologue is
      the first generated loop that is not promoted away, the epilogue the
      last one unless it is promoted away. */
  method SweepGroups(loop: ForLoop, groups: seq<seq<Stmt>>, tripCount: nat)
    returns (chunks: seq<Chunk>, prologue: Option<nat>, epilogue: Option<nat>)
    requires loop.step > 0 && |groups| > 0 && groups[|groups| - 1] != []
    ensures |chunks| > 0 && WellFormedChunks(groups, chunks)
    ensures |chunks[0].queue| > 0 && chunks[0].lbDelay == chunks[0].queue[0] && NoneBelow(groups, chunks[0].queue[0])
    ensures chunks[|chunks| - 1].ubDelay == |groups| - 1 + tripCount
    ensures chunks[|chunks| - 1].queue == [|groups| - 1]
    ensures NonEmptyDelays(groups, |groups|) <= ChunkDelays(chunks)
    ensures prologue == FirstUnpromoted(loop, chunks)
    ensures epilogue == if Promoted(loop, chunks[|chunks| - 1]) then None else Some(|chunks| - 1)
  {
    var queue, lbDelay;
    chunks, queue, lbDelay := SweepStarts(groups, tripCount);
    chunks := SweepPending(groups, tripCount, chunks, queue, lbDelay);
    prologue := FirstUnpromoted(loop, chunks);
    epilogue := if Promoted(loop, chunks[|chunks| - 1]) then None else Some(|chunks| - 1);
  }

  /** What holds of the sweep after the groups below d: the generated
      chunks are well formed and start at the first non-empty group, the
      queue holds delays below d of non-empty groups and the next chunk
      starts at lbDelay, and each non-empty group below d is queued or run. */
  predicate StartsState(groups: seq<seq<Stmt>>, d: nat, chunks: seq<Chunk>, queue: seq<nat>, lbDelay: nat)
  {
    && d <= |groups|
    && WellFormedChunks(groups, chunks) && GoodQueue(groups, queue)
    && (forall j :: 0 <= j < |queue| ==> queue[j] < d)
    && (queue == [] ==> chunks == [] && NoneBelow(groups, d))
    && (d > 0 && groups[d - 1] != [] ==> queue != [] && queue[|queue| - 1] == d - 1)
    && (chunks == [] && queue != [] ==> lbDelay == queue[0] && NoneBelow(groups, queue[0]))
    && (chunks != [] ==>
          queue != [] && chunks[|chunks| - 1].ubDelay == lbDelay &&
          |chunks[0].queue| > 0 && chunks[0].lbDelay == chunks[0].queue[0] && NoneBelow(groups, chunks[0].queue[0]))
    && NonEmptyDelays(groups, d) <= Elements(queue) + ChunkDelays(chunks)
  }

  /** One step of the sweep, at delay d. */
  method SweepStep(groups: seq<seq<Stmt>>, tripCount: nat, d: nat, chunks0: seq<Chunk>, queue0: seq<nat>, lbDelay0: nat)
    returns (chunks: seq<Chunk>, queue: seq<nat>, lbDelay: nat)
    requires d < |groups| && StartsState(groups, d, chunks0, queue0, lbDelay0)
    ensures StartsState(groups, d + 1, chunks, queue, lbDelay)
  {
    chunks, queue, lbDelay := chunks0, queue0, lbDelay0;
    if groups[d] == [] {
      StepEmptyGroup(groups, d, chunks, queue, lbDelay);
      return;
    }
    if queue != [] {
      var res;
      if lbDelay + tripCount < d {
        res := Chunk(lbDelay, lbDelay + tripCount, queue);
        queue := [];
      } else {
        res := Chunk(lbDelay, d, queue);
      }
      StepGenerate(groups, d, chunks, queue0, lbDelay, res, queue);
      chunks := chunks + [res];
      lbDelay := res.ubDelay;
    } else {
      StepFirstGroup(groups, d, chunks, lbDelay);
      lbDelay := d;
    }
    queue := queue + [d];
  }

  lemma StepEmptyGroup(groups: seq<seq<Stmt>>, d: nat, chunks: seq<Chunk>, queue: seq<nat>, lbDelay: nat)
    requires d < |groups| && groups[d] == [] && StartsState(groups, d, chunks, queue, lbDelay)
    ensures StartsState(groups, d + 1, chunks, queue, lbDelay)
  {
    assert NonEmptyDelays(groups, d + 1) == NonEmptyDelays(groups, d);
  }

  lemma StepFirstGroup(groups: seq<seq<Stmt>>, d: nat, chunks: seq<Chunk>, lbDelay: nat)
    requires d < |groups| && groups[d] != [] && StartsState(groups, d, chunks, [], lbDelay)
    ensures StartsState(groups, d + 1, chunks, [d], d)
  {
    assert NonEmptyDelays(groups, d + 1) == NonEmptyDelays(groups, d) + {d};
    assert Elements([d]) == {d};
  }

  /** A new non-empty group generates a loop for the queued groups, which
      ends d - lbDelay or tripCount delays later; in the second case the
      queue is emptied before d is queued. */
  lemma StepGenerate(groups: seq<seq<Stmt>>, d: nat, chunks: seq<Chunk>, queue: seq<nat>, lbDelay: nat,
                     res: Chunk, rest: seq<nat>)
    requires d < |groups| && groups[d] != [] && StartsState(groups, d, chunks, queue, lbDelay)
    requires queue != [] && res.lbDelay == lbDelay && res.queue == queue
    requires rest == [] || rest == queue
    requires rest == queue ==> res.ubDelay == d
    ensures StartsState(groups, d + 1, chunks + [res], rest + [d], res.ubDelay)
  {
    WellFormedAppend(groups, chunks, res);
    var all := chunks + [res];
    assert all[0] == if chunks == [] then res else chunks[0];
    assert NonEmptyDelays(groups, d + 1) == NonEmptyDelays(groups, d) + {d};
    QueueExtend(groups, rest, d);
    assert Elements(rest + [d]) == Elements(rest) + {d};
  }

  method SweepStarts(groups: seq<seq<Stmt>>, tripCount: nat)
    returns (chunks: seq<Chunk>, queue: seq<nat>, lbDelay: nat)
    requires |groups| > 0 && groups[|groups| - 1] != []
    ensures WellFormedChunks(groups, chunks)
    ensures |queue| > 0 && GoodQueue(groups, queue) && queue[|queue| - 1] == |groups| - 1
    ensures chunks == [] ==> lbDelay == queue[0] && NoneBelow(groups, queue[0])
    ensures chunks != [] ==>
      chunks[|chunks| - 1].ubDelay == lbDelay &&
      |chunks[0].queue| > 0 && chunks[0].lbDelay == chunks[0].queue[0] && NoneBelow(groups, chunks[0].queue[0])
    ensures NonEmptyDelays(groups, |groups|) <= Elements(queue) + ChunkDelays(chunks)
  {
    chunks := [];
    queue := [];
    lbDelay := 0;
    assert NonEmptyDelays(groups, 0) == {};
    for d := 0 to |groups|
      invariant StartsState(groups, d, chunks, queue, lbDelay)
    {
      chunks, queue, lbDelay := SweepStep(groups, tripCount, d, chunks, queue, lbDelay);
    }
  }

  method SweepPending(groups: seq<seq<Stmt>>, tripCount: nat, chunks0: seq<Chunk>, queue: seq<nat>, lbDelay0: nat)
    returns (chunks: seq<Chunk>)
    requires |groups| > 0
    requires WellFormedChunks(groups, chunks0)
    requires |queue| > 0 && GoodQueue(groups, queue) && queue[|queue| - 1] == |groups| - 1
    requires chunks0 == [] ==> lbDelay0 == queue[0] && NoneBelow(groups, queue[0])
    requires chunks0 != [] ==>
      chunks0[|chunks0| - 1].ubDelay == lbDelay0 &&
      |chunks0[0].queue| > 0 && chunks0[0].lbDelay == chunks0[0].queue[0] && NoneBelow(groups, chunks0[0].queue[0])
    requires NonEmptyDelays(groups, |groups|) <= Elements(queue) + ChunkDelays(chunks0)
    ensures |chunks| > 0 && WellFormedChunks(groups, chunks)
    ensures |chunks[0].queue| > 0 && chunks[0].lbDelay == chunks[0].queue[0] && NoneBelow(groups, chunks[0].queue[0])
    ensures chunks[|chunks| - 1].ubDelay == |groups| - 1 + tripCount
    ensures chunks[|chunks| - 1].queue == [|groups| - 1]
    ensures NonEmptyDelays(groups, |groups|) <= ChunkDelays(chunks)
  {
    chunks := chunks0;
    var lbDelay: nat := lbDelay0;
    assert queue[0..] == queue;
    for i := 0 to |queue|
      invariant PendingState(groups, tripCount, queue, i, chunks, lbDelay)
    {
      PendingStep(groups, tripCount, queue, i, chunks, lbDelay);
      chunks := chunks + [Chunk(lbDelay, queue[i] + tripCount, queue[i..])];
      lbDelay := queue[i] + tripCount;
    }
    assert queue[|queue| - 1..] == [|groups| - 1];
    assert queue[|queue|..] == [];
  }

  /** What holds of the sweep's last phase after the first i queued groups
      got their loop. */
  predicate PendingState(groups: seq<seq<Stmt>>, tripCount: nat, queue: seq<nat>, i: nat,
                         chunks: seq<Chunk>, lbDelay: nat)
  {
    && i <= |queue| && GoodQueue(groups, queue)
    && WellFormedChunks(groups, chunks)
    && (i > 0 ==>
          |chunks| > 0 && chunks[|chunks| - 1].ubDelay == queue[i - 1] + tripCount &&
          chunks[|chunks| - 1].queue == queue[i - 1..])
    && (chunks != [] ==>
          chunks[|chunks| - 1].ubDelay == lbDelay &&
          |chunks[0].queue| > 0 && chunks[0].lbDelay == chunks[0].queue[0] && NoneBelow(groups, chunks[0].queue[0]))
    && (chunks == [] ==> |queue| > 0 && i == 0 && lbDelay == queue[0] && NoneBelow(groups, queue[0]))
    && NonEmptyDelays(groups, |groups|) <= Elements(queue[i..]) + ChunkDelays(chunks)
  }

  /** The loop for the queued groups from position i on keeps PendingState. */
  lemma PendingStep(groups: seq<seq<Stmt>>, tripCount: nat, queue: seq<nat>, i: nat,
                    chunks: seq<Chunk>, lbDelay: nat)
    requires i < |queue| && PendingState(groups, tripCount, queue, i, chunks, lbDelay)
    ensures PendingState(groups, tripCount, queue, i + 1,
                         chunks + [Chunk(lbDelay, queue[i] + tripCount, queue[i..])], queue[i] + tripCount)
  {
    var res := Chunk(lbDelay, queue[i] + tripCount, queue[i..]);
    assert queue[i..][0] == queue[i];
    assert GoodQueue(groups, queue[i..]);
    assert Elements(queue[i..]) == Elements(queue[i + 1..]) + {queue[i]};
    WellFormedAppend(groups, chunks, res);
    var all := chunks + [res];
    assert all[0] == if chunks == [] then res else chunks[0];
  }

  // ---------------------------------------------------------------------
  // stmtBodySkew: unrolling the prologue and the epilogue

  /** The loops handed to loopUnrollFull as written: the prologue when there
      is one, then the epilogue when it is null and differs from the
      prologue, so a null loop is unrolled and a real epilogue never is.
      None stands for a null loop. */
  function UnrollTargetsAsWritten(unroll: bool, prologue: Option<nat>, epilogue: Option<nat>): seq<Option<nat>>
  {
    (if unroll && prologue.Some? then [prologue] else []) +
    (if unroll && epilogue.None? && epilogue != prologue then [epilogue] else [])
  }

  /** A single-iteration epilogue comes back null, and the test as written
      then passes the null loop to loopUnrollFull. */
  lemma NullEpilogueUnrolledAsWritten()
    ensures UnrollTargetsAsWritten(true, Some(0), None) == [Some(0), None]
    ensures UnrollTargetsAsWritten(true, Some(0), Some(1)) == [Some(0)]
  {
  }

  /** The loops to unroll fully: the prologue and a distinct epilogue, when
      they exist and unrolling is asked for. */
  function UnrollTargets(unroll: bool, prologue: Option<nat>, epilogue: Option<nat>): (r: seq<nat>)
    ensures !unroll ==> r == []
    ensures unroll && prologue.Some? ==> prologue.value in r
    ensures unroll && epilogue.Some? ==> epilogue.value in r
    ensures forall x :: x in r ==> Some(x) == prologue || Some(x) == epilogue
    ensures forall i, j :: 0 <= i < j < |r| ==> r[i] != r[j]
  {
    (if unroll && prologue.Some? then [prologue.value] else []) +
    (if unroll && epilogue.Some? && epilogue != prologue then [epilogue.value] else [])
  }

  lemma {:induction false} GroupContains<T>(body: seq<T>, delays: seq<nat>, i: nat)
    requires |delays| == |body| && i < |body|
    ensures body[i] in Group(body, delays, delays[i])
  {
    var n := |body| - 1;
    if i < n {
      GroupContains(body[..n], delays[..n], i);
    }
  }

  /** stmtBodySkew: nothing changes for an empty body, a trip count that is
      not constant, or a largest delay of at least the number of
      statements; otherwise the statements are grouped by delay and swept
      into new loops, and the prologue and the epilogue are unrolled when
      asked for. */
  method StmtBodySkew(loop: ForLoop, body: seq<Stmt>, delays: seq<nat>, unrollPrologueEpilogue: bool)
    returns (changed: bool, groups: seq<seq<Stmt>>, chunks: seq<Chunk>, unrolled: seq<nat>)
    requires |delays| == |body| && loop.step > 0
    ensures !changed <==> body == [] || loop.constantTripCount.None? || MaxDelay(delays) >= |body|
    ensures !changed ==> groups == [] && chunks == [] && unrolled == []
    ensures changed ==>
      |groups| == MaxDelay(delays) + 1 &&
      forall d :: 0 <= d < |groups| ==> groups[d] == Group(body, delays, d)
    ensures changed ==>
      |chunks| > 0 && WellFormedChunks(groups, chunks) &&
      NonEmptyDelays(groups, |groups|) <= ChunkDelays(chunks) &&
      chunks[|chunks| - 1].ubDelay == MaxDelay(delays) + loop.constantTripCount.value
    ensures changed ==>
      var epilogue := if Promoted(loop, chunks[|chunks| - 1]) then None else Some(|chunks| - 1);
      unrolled == UnrollTargets(unrollPrologueEpilogue, FirstUnpromoted(loop, chunks), epilogue)
  {
    groups, chunks, unrolled := [], [], [];
    if body == [] {
      return false, groups, chunks, unrolled;
    }
    if loop.constantTripCount.None? {
      return false, groups, chunks, unrolled;
    }
    var tripCount := loop.constantTripCount.value;
    var maxDelay := 0;
    for i := 0 to |body|
      invariant maxDelay == MaxDelay(delays[..i])
    {
      assert delays[..i + 1][..i] == delays[..i];
      maxDelay := Max(maxDelay, delays[i]);
    }
    assert delays[..|body|] == delays;
    if maxDelay >= |body| {
      return false, groups, chunks, unrolled;
    }
    groups := GroupByDelay(body, delays, maxDelay);
    var top :| 0 <= top < |delays| && delays[top] == maxDelay;
    GroupContains(body, delays, top);
    var prologue, epilogue;
    chunks, prologue, epilogue := SweepGroups(loop, groups, tripCount);
    unrolled := UnrollTargets(unrollPrologueEpilogue, prologue, epilogue);
    changed := true;
  }
}
