// ConditionalThunk: the GPU thunk that runs one branch of a conditional,
// choosing it from a selector value copied back from the device.
module ConditionalThunk {
  import opened Common
  import CS = ConditionalSimplifier

  /** ConditionalThunkConfig: whether the selector is a PRED, the number of
      branches the instruction has, and one sequential thunk per branch
      (thunks are identified by number). */
  datatype Config = Config(branchIndexIsBool: bool, branchCount: nat, branchThunks: seq<nat>)

  /** GetConditionalThunkConfig: the selector is boolean iff operand 0 has
      PRED element type, and every branch's thunk sequence becomes one
      sequential thunk. */
  function GetConditionalThunkConfig(selector: CS.Selector, branchCount: nat, thunks: seq<nat>): (r: Config)
    ensures r.branchIndexIsBool <==> CS.IsPred(selector)
    ensures r.branchCount == branchCount && r.branchThunks == thunks
  {
    Config(CS.IsPred(selector), branchCount, thunks)
  }

  /** Initialize: a boolean selector needs exactly two branch thunks, and an
      index selector at least one (an Internal error otherwise); then every
      branch thunk is initialized in order and the first failure is
      returned. */
  function Initialize(config: Config, thunkInit: seq<Code>): (r: Code)
    requires |thunkInit| == |config.branchThunks|
    ensures config.branchIndexIsBool && |config.branchThunks| != 2 ==> r == Internal
    ensures !config.branchIndexIsBool && |config.branchThunks| == 0 ==> r == Internal
    ensures r == Ok <==> Initializable(config) && forall k :: 0 <= k < |thunkInit| ==> thunkInit[k] == Ok
  {
    if config.branchIndexIsBool && |config.branchThunks| != 2 then Internal
    else if !config.branchIndexIsBool && |config.branchThunks| == 0 then Internal
    else FirstFailure(thunkInit)
  }

  /** The shape check Initialize makes. */
  predicate Initializable(config: Config)
  {
    if config.branchIndexIsBool then |config.branchThunks| == 2 else |config.branchThunks| >= 1
  }

  /** The first non-OK status of a list, or OK when all are OK. */
  function FirstFailure(statuses: seq<Code>): (r: Code)
    ensures r == Ok <==> forall k :: 0 <= k < |statuses| ==> statuses[k] == Ok
    ensures r != Ok ==> r in statuses
  {
    if statuses == [] then Ok
    else if statuses[0] != Ok then statuses[0]
    else FirstFailure(statuses[1..])
  }

  /** The branch ExecuteOnStream runs: pred ? 0 : 1 for a boolean selector,
      and for an index selector the index itself, or the last branch when
      the index lies outside [0, branch_count). */
  function BranchIndex(config: Config, v: CS.SelectorValue): (r: int)
    requires v.PredValue? <==> config.branchIndexIsBool
  {
    if config.branchIndexIsBool then (if v.pred then 0 else 1)
    else if v.index < 0 || v.index >= config.branchCount then config.branchCount - 1
    else v.index
  }

  /** The thunk's branch index is the branch the conditional's semantics
      choose, so it is always a valid branch. */
  lemma BranchIndexInRange(config: Config, v: CS.SelectorValue)
    requires v.PredValue? <==> config.branchIndexIsBool
    requires Initializable(config) && config.branchCount == |config.branchThunks|
    ensures 0 <= BranchIndex(config, v) < |config.branchThunks|
    ensures BranchIndex(config, v) == CS.BranchRun(config.branchCount, v)
  {
  }

  /** The outcome of ExecuteOnStream: its status, and the branch whose thunk
      ran, if any. */
  datatype Execution = Execution(status: Code, ran: Option<nat>)

  /** ExecuteOnStream. The selector is copied from the device (fetched); if
      waiting for the copy fails the result is Internal and no branch runs.
      Otherwise the chosen branch's thunk runs and its status is returned. */
  function ExecuteOnStream(config: Config, fetched: Result<CS.SelectorValue>, runBranch: nat -> Code): (r: Execution)
    requires Initializable(config) && config.branchCount == |config.branchThunks|
    requires fetched.Success? ==> (fetched.value.PredValue? <==> config.branchIndexIsBool)
    ensures fetched.Failure? ==> r == Execution(Internal, None)
    ensures fetched.Success? ==>
              r.ran.Some? && r.ran.value < config.branchCount
              && r.ran.value == CS.BranchRun(config.branchCount, fetched.value)
              && r.status == runBranch(r.ran.value)
  {
    if fetched.Failure? then Execution(Internal, None)
    else
      BranchIndexInRange(config, fetched.value);
      var k := BranchIndex(config, fetched.value);
      Execution(runBranch(k), Some(k))
  }

  /** Folding a conditional with a constant selector at compile time inlines
      the very branch the thunk would run at run time on that constant. */
  lemma ConstantFoldingAgrees(c: CS.Conditional, thunks: seq<nat>, runBranch: nat -> Code)
    requires CS.WellFormed(c) && |c.branches| >= 2 && |thunks| == |c.branches|
    requires c.selector.ConstantPred? || c.selector.ConstantIndex?
    requires c.removable && !c.sideEffect
    ensures var config := GetConditionalThunkConfig(c.selector, |c.branches|, thunks);
            var v := if c.selector.ConstantPred? then CS.PredValue(c.selector.pred)
                     else CS.IndexValue(c.selector.index);
            CS.TryRemoveConditional(c) == CS.InlineBranch(ExecuteOnStream(config, Success(v), runBranch).ran.value)
  {
    CS.ConstantBranchIndexRuns(c.selector, |c.branches|);
  }
}
