// The TFLite GPU delegate (V2): the mapping of the C option constants to
// inference priorities and usages, the default options, how the options
// become the OpenCL or OpenGL inference options, and the kernel's Prepare
// and Invoke bookkeeping. The OpenCL and OpenGL back ends are abstract:
// their outcomes are parameters.
module GpuDelegate {
  import opened Common

  // ---------------------------------------------------------------------
  // Option constants and their mapping
  // ---------------------------------------------------------------------

  /** TfLiteGpuInferencePriority values. */
  const PriorityAutoValue: int := 0
  const PriorityMaxPrecisionValue: int := 1
  const PriorityMinLatencyValue: int := 2
  const PriorityMinMemoryUsageValue: int := 3

  /** TfLiteGpuInferenceUsage values. */
  const PreferenceFastSingleAnswerValue: int := 0
  const PreferenceSustainedSpeedValue: int := 1

  datatype InferencePriority = UnknownPriority | Auto | MinLatency | MaxPrecision | MinMemoryUsage
  datatype InferenceUsage = UnknownUsage | FastSingleAnswer | SustainedSpeed

  /** ToPriority: the four C priority constants, anything else UNKNOWN. */
  function ToPriority(priority: int): InferencePriority
  {
    if priority == PriorityAutoValue then Auto
    else if priority == PriorityMaxPrecisionValue then MaxPrecision
    else if priority == PriorityMinLatencyValue then MinLatency
    else if priority == PriorityMinMemoryUsageValue then MinMemoryUsage
    else UnknownPriority
  }

  /** ToUsage: the two C preference constants, anything else UNKNOWN. */
  function ToUsage(usage: int): InferenceUsage
  {
    if usage == PreferenceFastSingleAnswerValue then FastSingleAnswer
    else if usage == PreferenceSustainedSpeedValue then SustainedSpeed
    else UnknownUsage
  }

  /** The C constant of a known priority. */
  function PriorityValue(p: InferencePriority): (v: Option<int>)
  {
    match p
    case Auto => Some(PriorityAutoValue)
    case MaxPrecision => Some(PriorityMaxPrecisionValue)
    case MinLatency => Some(PriorityMinLatencyValue)
    case MinMemoryUsage => Some(PriorityMinMemoryUsageValue)
    case UnknownPriority => None
  }

  function UsageValue(u: InferenceUsage): (v: Option<int>)
  {
    match u
    case FastSingleAnswer => Some(PreferenceFastSingleAnswerValue)
    case SustainedSpeed => Some(PreferenceSustainedSpeedValue)
    case UnknownUsage => None
  }

  /** ToPriority is the inverse of the constant table: a known priority
      comes from exactly its constant, and UNKNOWN from everything else. */
  lemma ToPriorityInvertsValue(priority: int, p: InferencePriority)
    ensures ToPriority(priority) == p <==>
              (if p == UnknownPriority then forall q :: PriorityValue(q) != Some(priority)
               else PriorityValue(p) == Some(priority))
  {
    if p == UnknownPriority && ToPriority(priority) != p {
      assert PriorityValue(ToPriority(priority)) == Some(priority);
    }
  }

  lemma ToUsageInvertsValue(usage: int, u: InferenceUsage)
    ensures ToUsage(usage) == u <==>
              (if u == UnknownUsage then forall q :: UsageValue(q) != Some(usage)
               else UsageValue(u) == Some(usage))
  {
    if u == UnknownUsage && ToUsage(usage) != u {
      assert UsageValue(ToUsage(usage)) == Some(usage);
    }
  }

  // ---------------------------------------------------------------------
  // Options
  // ---------------------------------------------------------------------

  datatype GpuDelegateOptions = GpuDelegateOptions(
    isPrecisionLossAllowed: int,
    inferencePreference: int,
    inferencePriority1: int,
    inferencePriority2: int,
    inferencePriority3: int)

  /** TfLiteGpuDelegateOptionsV2Default. */
  function DefaultOptions(): (o: GpuDelegateOptions)
    ensures o.isPrecisionLossAllowed == -1
    ensures ToUsage(o.inferencePreference) == FastSingleAnswer
    ensures ToPriority(o.inferencePriority1) == MaxPrecision
    ensures ToPriority(o.inferencePriority2) == Auto && ToPriority(o.inferencePriority3) == Auto
  {
    GpuDelegateOptions(-1, PreferenceFastSingleAnswerValue,
                       PriorityMaxPrecisionValue, PriorityAutoValue, PriorityAutoValue)
  }

  /** The options a Delegate keeps: a copy of the given ones, or the
      defaults for a null pointer. */
  function DelegateOptions(options: Option<GpuDelegateOptions>): (o: GpuDelegateOptions)
    ensures options.Some? ==> o == options.value
    ensures options.None? ==> o == DefaultOptions()
  {
    if options.Some? then options.value else DefaultOptions()
  }

  /** The inference options of either back end. */
  datatype InferenceOptions = InferenceOptions(
    usage: InferenceUsage,
    priority1: InferencePriority,
    priority2: InferencePriority,
    priority3: InferencePriority)

  /** A value-initialized InferenceOptions: sustained speed, then max
      precision, auto, auto. */
  const DefaultInferenceOptions: InferenceOptions :=
    InferenceOptions(SustainedSpeed, MaxPrecision, Auto, Auto)

  /** InitializeOpenClApi's options: with is_precision_loss_allowed == -1 the
      three priorities; otherwise only priority1, from the flag; usage from
      the preference. */
  function ClInferenceOptions(o: GpuDelegateOptions): InferenceOptions
  {
    var base := DefaultInferenceOptions.(usage := ToUsage(o.inferencePreference));
    if o.isPrecisionLossAllowed == -1 then
      base.(priority1 := ToPriority(o.inferencePriority1),
            priority2 := ToPriority(o.inferencePriority2),
            priority3 := ToPriority(o.inferencePriority3))
    else if o.isPrecisionLossAllowed == 0 then base.(priority1 := MaxPrecision)
    else base.(priority1 := MinLatency)
  }

  /** InitializeOpenGlApi's options: always the three priorities. */
  function GlInferenceOptions(o: GpuDelegateOptions): InferenceOptions
  {
    InferenceOptions(ToUsage(o.inferencePreference), ToPriority(o.inferencePriority1),
                     ToPriority(o.inferencePriority2), ToPriority(o.inferencePriority3))
  }

  /** The precision-loss flag takes precedence over the priorities for
      OpenCL: -1 defers to the three priorities, 0 forces max precision, any
      other value min latency, leaving priorities 2 and 3 at their defaults;
      the usage always follows the preference. */
  lemma PrecisionLossPrecedence(o: GpuDelegateOptions)
    ensures var c := ClInferenceOptions(o);
            c.usage == ToUsage(o.inferencePreference) &&
            (o.isPrecisionLossAllowed == -1 ==> c == GlInferenceOptions(o)) &&
            (o.isPrecisionLossAllowed == 0 ==> c.priority1 == MaxPrecision) &&
            (o.isPrecisionLossAllowed != -1 && o.isPrecisionLossAllowed != 0 ==> c.priority1 == MinLatency) &&
            (o.isPrecisionLossAllowed != -1 ==> c.priority2 == Auto && c.priority3 == Auto)
  {
  }

  /** Under the defaults both back ends ask for max precision first, then
      auto, for a single fast answer. */
  lemma DefaultsAgree()
    ensures ClInferenceOptions(DefaultOptions()) == GlInferenceOptions(DefaultOptions())
    ensures GlInferenceOptions(DefaultOptions()) == InferenceOptions(FastSingleAnswer, MaxPrecision, Auto, Auto)
  {
  }

  // ---------------------------------------------------------------------
  // The delegate kernel
  // ---------------------------------------------------------------------

  /** How InitializeOpenClApi ends: Ok, failed before the graph was handed
      over (creating the environment), or failed after (creating the
      builder), in which case the graph is gone. */
  datatype ClOutcome = ClReady | ClEnvironmentFailed(code: Code) | ClBuilderFailed(code: Code)

  /** The first non-OK status of a sequence of calls, or Ok. */
  function FirstError(codes: seq<Code>): (r: Code)
    ensures r == Ok <==> forall i :: 0 <= i < |codes| ==> codes[i] == Ok
    ensures r != Ok ==> exists i :: 0 <= i < |codes| && codes[i] == r
  {
    if codes == [] then Ok
    else if codes[0] != Ok then codes[0]
    else
      var r := FirstError(codes[1..]);
      assert forall i :: 1 <= i < |codes| ==> codes[i] == codes[1..][i - 1];
      r
  }

  /** The status of every SetInputObject call, then every SetOutputObject call. */
  function BindCodes(inputs: seq<int>, outputs: seq<int>, bind: (bool, nat, int) -> Code): (r: seq<Code>)
    ensures |r| == |inputs| + |outputs|
    ensures forall i :: 0 <= i < |inputs| ==> r[i] == bind(true, i, inputs[i])
    ensures forall i :: 0 <= i < |outputs| ==> r[|inputs| + i] == bind(false, i, outputs[i])
  {
    seq(|inputs|, i requires 0 <= i < |inputs| => bind(true, i, inputs[i])) +
    seq(|outputs|, i requires 0 <= i < |outputs| => bind(false, i, outputs[i]))
  }

  class DelegateKernel {
    const options: GpuDelegateOptions
    var inputIndices: seq<int>
    var outputIndices: seq<int>
    var threadIdPrepare: int
    var enforceSameThread: bool
    /** Which back end Prepare set up, if any. */
    var backendIsGl: bool

    constructor (options: GpuDelegateOptions)
      ensures this.options == options
      ensures inputIndices == [] && outputIndices == [] && !enforceSameThread && !backendIsGl
    {
      this.options := options;
      inputIndices := [];
      outputIndices := [];
      threadIdPrepare := 0;
      enforceSameThread := false;
      backendIsGl := false;
    }

    /** Prepare on thread `thread`: build the graph, try OpenCL and fall
        back to OpenGL (rebuilding the graph if OpenCL consumed it), then
        record the graph's input and output tensor indices in order.
        OpenGL, and only OpenGL, enforces same-thread invocation. */
    method Prepare(thread: int, build: Code, inputRefs: seq<int>, outputRefs: seq<int>,
                   cl: ClOutcome, rebuild: Code, gl: Code, buildRunner: Code)
      returns (status: Code)
      modifies this
      ensures threadIdPrepare == thread
      ensures var clFailed := !cl.ClReady?;
              var rebuildFailed := clFailed && cl.ClBuilderFailed? && rebuild != Ok;
              var glFailed := clFailed && !rebuildFailed && gl != Ok;
              if build != Ok then status == build && inputIndices == old(inputIndices) && outputIndices == old(outputIndices)
              else if rebuildFailed then status == rebuild && inputIndices == old(inputIndices) && outputIndices == old(outputIndices)
              else if glFailed then status == gl && inputIndices == old(inputIndices) && outputIndices == old(outputIndices)
              else
                status == buildRunner &&
                inputIndices == old(inputIndices) + inputRefs &&
                outputIndices == old(outputIndices) + outputRefs &&
                backendIsGl == clFailed && enforceSameThread == (old(enforceSameThread) || clFailed)
    {
      threadIdPrepare := thread;
      if build != Ok {
        return build;
      }
      if !cl.ClReady? {
        if cl.ClBuilderFailed? && rebuild != Ok {
          return rebuild;
        }
        if gl != Ok {
          return gl;
        }
        enforceSameThread := true;
        backendIsGl := true;
      } else {
        backendIsGl := false;
      }
    var ins, outs := inputIndices, outputIndices;
      var i := 0;
      while i < |inputRefs|
        invariant 0 <= i <= |inputRefs|
        invariant ins == inputIndices + inputRefs[..i]
      {
        ins := ins + [inputRefs[i]];
        i := i + 1;
      }
      assert inputRefs[..i] == inputRefs;
      var j := 0;
      while j < |outputRefs|
        invariant 0 <= j <= |outputRefs|
        invariant outs == outputIndices + outputRefs[..j]
      {
        outs := outs + [outputRefs[j]];
        j := j + 1;
      }
      assert outputRefs[..j] == outputRefs;
      inputIndices, outputIndices := ins, outs;
      return buildRunner;
    }

    /** The inference options the chosen back end was built with. */
    function BackendOptions(): InferenceOptions
      reads this
    {
      if backendIsGl then GlInferenceOptions(options) else ClInferenceOptions(options)
    }

    /** SetInputsAndOutputs: bind every input then every output, stopping
        at the first failure. */
    method SetInputsAndOutputs(bind: (bool, nat, int) -> Code) returns (status: Code)
      ensures status == FirstError(BindCodes(inputIndices, outputIndices, bind))
    {
      ghost var codes := BindCodes(inputIndices, outputIndices, bind);
      var i := 0;
      while i < |inputIndices|
        invariant 0 <= i <= |inputIndices|
        invariant forall k :: 0 <= k < i ==> codes[k] == Ok
      {
        var s := bind(true, i, inputIndices[i]);
        if s != Ok {
          FirstErrorAt(codes, i);
          return s;
        }
        i := i + 1;
      }
      var j := 0;
      while j < |outputIndices|
        invariant 0 <= j <= |outputIndices|
        invariant forall k :: 0 <= k < |inputIndices| + j ==> codes[k] == Ok
      {
        var s := bind(false, j, outputIndices[j]);
        if s != Ok {
          FirstErrorAt(codes, |inputIndices| + j);
          return s;
        }
        j := j + 1;
      }
      return Ok;
    }

    /** Invoke on thread `thread`: a thread other than Prepare's fails with
        FailedPrecondition only under same-thread enforcement; otherwise the
        inputs and outputs are bound and the runner runs. */
    method Invoke(thread: int, bind: (bool, nat, int) -> Code, runStatus: Code) returns (status: Code)
      ensures thread != threadIdPrepare && enforceSameThread ==> status == FailedPrecondition
      ensures !(thread != threadIdPrepare && enforceSameThread) ==>
                status == (var b := FirstError(BindCodes(inputIndices, outputIndices, bind));
                           if b != Ok then b else runStatus)
    {
      if thread != threadIdPrepare {
        if enforceSameThread {
          return FailedPrecondition;
        }
      }
      status := SetInputsAndOutputs(bind);
      if status != Ok {
        return status;
      }
      return runStatus;
    }
  }

  /** The first error of a sequence is at the first non-OK position. */
  lemma {:induction false} FirstErrorAt(codes: seq<Code>, i: nat)
    requires i < |codes| && codes[i] != Ok
    requires forall k :: 0 <= k < i ==> codes[k] == Ok
    ensures FirstError(codes) == codes[i]
  {
    if i > 0 {
      FirstErrorAt(codes[1..], i - 1);
    }
  }
}
