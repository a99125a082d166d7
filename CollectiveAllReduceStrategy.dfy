// CollectiveAllReduceExtended, the multi-worker mirrored strategy: its
// local and multi-worker initialisation (device lists and the group sizes of
// the compute and host all-reduce channels), the choice of channel for a
// value, the replica numbering, the reduction shortcuts, the initial-value
// broadcast roles, and the peer-health check loop. The collective runtime,
// the cluster resolver and multi_worker_util are abstract: what they report
// is a parameter.
module CollectiveAllReduceStrategy {
  import opened Common
  import opened PyErrors
  import CU = CollectiveUtil

  // ---------------------------------------------------------------------
  // Devices and channels
  // ---------------------------------------------------------------------

  datatype Communication = Auto | Ring | Nccl

  /** A CollectiveAllReduce cross-device-ops object: the devices it works
      on, its group size and its communication implementation. */
  datatype CrossDeviceOps = CrossDeviceOps(devices: seq<string>, groupSize: int, communication: Communication)

  /** One job of the cluster spec: its name and number of tasks, in the
      spec's job order. */
  datatype Job = Job(name: string, numTasks: nat)

  /** What the cluster resolver supplies, together with what
      multi_worker_util computes from it for this task (worker_count,
      id_in_cluster and is_chief are not part of this model). */
  datatype ClusterResolver = ClusterResolver(
    jobs: seq<Job>, taskType: Option<string>, taskId: Option<int>, numGpus: nat,
    workerCount: nat, idInCluster: nat, isChief: bool)

  /** "/device:GPU:%d" % i, under an optional task prefix. */
  function GpuDevice(prefix: string, i: nat): string
  {
    prefix + "/device:GPU:" + NatToString(i)
  }

  /** One device per GPU, numbered from 0. */
  function GpuDevices(prefix: string, n: nat): (r: seq<string>)
    ensures |r| == n
    ensures forall i :: 0 <= i < n ==> r[i] == GpuDevice(prefix, i)
  {
    if n == 0 then [] else GpuDevices(prefix, n - 1) + [GpuDevice(prefix, n - 1)]
  }

  /** The local devices: one per GPU, or the fallback device alone when there
      is no GPU. */
  function LocalDevices(prefix: string, numGpus: nat, fallback: string): seq<string>
  {
    if numGpus > 0 then GpuDevices(prefix, numGpus) else [fallback]
  }

  /** The local devices are never empty, there is one per GPU (or the single
      fallback), and no device is listed twice. */
  lemma LocalDevicesShape(prefix: string, numGpus: nat, fallback: string)
    ensures var d := LocalDevices(prefix, numGpus, fallback);
            |d| == (if numGpus > 0 then numGpus else 1) && |d| >= 1
            && (numGpus == 0 ==> d == [fallback])
            && forall i, j :: 0 <= i < j < |d| ==> d[i] != d[j]
  {
    var d := LocalDevices(prefix, numGpus, fallback);
    forall i, j | 0 <= i < j < |d| ensures d[i] != d[j] {
      if numGpus > 0 {
        GpuDeviceDistinct(prefix, i, j);
      }
    }
  }

  lemma GpuDeviceDistinct(prefix: string, i: nat, j: nat)
    requires i != j
    ensures GpuDevice(prefix, i) != GpuDevice(prefix, j)
  {
    var p := prefix + "/device:GPU:";
    ParseNatToString(i);
    ParseNatToString(j);
    assert NatToString(i) != NatToString(j);
    assert GpuDevice(prefix, i)[|p|..] == NatToString(i);
    assert GpuDevice(prefix, j)[|p|..] == NatToString(j);
  }

  /** The host CPU device of a single worker. */
  const CpuDevice := "/device:CPU:0"

  /** "/job:%s/task:%d" % (task_type, task_id). */
  function TaskDevice(taskType: string, taskId: int): string
  {
    "/job:" + taskType + "/task:" + IntToString(taskId)
  }

  // ---------------------------------------------------------------------
  // Values and reductions
  // ---------------------------------------------------------------------

  /** A tensor, by identity. */
  type Tensor = nat

  /** A value handed to a reduction: a Mirrored or PerReplica distributed
      value (one component per device), or a plain tensor. */
  datatype Value = Mirrored(values: seq<Tensor>) | PerReplica(values: seq<Tensor>) | Plain(t: Tensor)
  {
    predicate IsDistributed() { Mirrored? || PerReplica? }
  }

  datatype ReduceOp = Sum | Mean

  /** The number of devices _get_cross_device_ops attributes to a value. */
  function NumDevicesOf(v: Value): nat
  {
    if v.IsDistributed() then |v.values| else 1
  }

  /** Which of the two channels serves a value. */
  datatype Channel = ComputeChannel | HostChannel

  /** _get_cross_device_ops: the compute-device channel when the value spans
      as many devices as this worker has, the host channel otherwise. */
  function ChooseChannel(v: Value, numWorkerDevices: nat): (c: Channel)
    ensures c == ComputeChannel <==> NumDevicesOf(v) == numWorkerDevices
  {
    if NumDevicesOf(v) == numWorkerDevices then ComputeChannel else HostChannel
  }

  /** What _reduce_to does with a value. */
  datatype ReducePlan =
    | ReturnedAsIs(value: Value)
    | ReduceRaised(exc: PyException)
    | NonDistributed(value: Value, numReplicas: nat)
    | OnChannel(channel: Channel, value: Value)

  /** _reduce_to. A Mirrored value under MEAN is returned unchanged, and any
      other Mirrored value fails the assertion. A distributed value on a
      worker with one device is reduced to its only component. A plain value
      with a single worker is handed to reduce_non_distributed_value with the
      number of local devices; everything else is reduced on the channel
      _get_cross_device_ops chooses. */
  function ReduceTo(op: ReduceOp, v: Value, numWorkerDevices: nat, numWorkers: int): (r: ReducePlan)
    requires v.IsDistributed() ==> |v.values| >= 1
    ensures v.Mirrored? && op == Mean ==> r == ReturnedAsIs(v)
    ensures v.Mirrored? && op != Mean ==> r == ReduceRaised(AssertionError)
    ensures r.OnChannel? ==> !v.Mirrored? && (numWorkers != 1 || r.value.IsDistributed())
    ensures r.NonDistributed? ==> numWorkers == 1 && r.numReplicas == numWorkerDevices && !r.value.IsDistributed()
  {
    if v.Mirrored? && op == Mean then ReturnedAsIs(v)
    else if v.Mirrored? then ReduceRaised(AssertionError)
    else
      var v' := if v.IsDistributed() && numWorkerDevices == 1 then Plain(v.values[0]) else v;
      if !v'.IsDistributed() && numWorkers == 1 then NonDistributed(v', numWorkerDevices)
      else OnChannel(ChooseChannel(v', numWorkerDevices), v')
  }

  /** A per-replica value with one component per local device reaches the
      compute channel whenever the worker has several devices; with a single
      device its one component is what gets reduced. */
  lemma PerReplicaUsesComputeChannel(op: ReduceOp, values: seq<Tensor>, numWorkers: int)
    requires |values| >= 2
    ensures ReduceTo(op, PerReplica(values), |values|, numWorkers) == OnChannel(ComputeChannel, PerReplica(values))
  {
  }

  // ---------------------------------------------------------------------
  // Replica numbering
  // ---------------------------------------------------------------------

  /** The global replica id of local replica `localId` on the worker with
      id `idInCluster` when every worker has `numLocal` replicas. */
  function ReplicaId(idInCluster: nat, numLocal: nat, localId: nat): nat
  {
    idInCluster * numLocal + localId
  }

  /** With numWorkers workers of numLocal replicas each, the replica ids are
      exactly 0 .. numWorkers*numLocal - 1, each given to one (worker, local
      replica) pair. */
  lemma ReplicaIdsPartition(numWorkers: nat, numLocal: nat, w: nat, l: nat, w': nat, l': nat)
    requires w < numWorkers && l < numLocal && w' < numWorkers && l' < numLocal
    ensures ReplicaId(w, numLocal, l) < numWorkers * numLocal
    ensures ReplicaId(w, numLocal, l) == ReplicaId(w', numLocal, l') ==> w == w' && l == l'
  {
    MulMonotone(numWorkers - 1, w, numLocal);
    assert (numWorkers - 1) * numLocal == numWorkers * numLocal - numLocal;
    if ReplicaId(w, numLocal, l) == ReplicaId(w', numLocal, l') {
      DivModUnique(ReplicaId(w, numLocal, l), numLocal, w, l);
      DivModUnique(ReplicaId(w', numLocal, l'), numLocal, w', l');
    }
  }

  /** Every replica id below numWorkers*numLocal belongs to some worker and
      local replica. */
  lemma ReplicaIdsCover(numWorkers: nat, numLocal: nat, id: nat)
    requires numLocal > 0 && id < numWorkers * numLocal
    ensures id / numLocal < numWorkers && ReplicaId(id / numLocal, numLocal, id % numLocal) == id
  {
    var q := id / numLocal;
    if q >= numWorkers {
      MulMonotone(q, numWorkers, numLocal);
    }
  }

  // ---------------------------------------------------------------------
  // Initial-value broadcast
  // ---------------------------------------------------------------------

  /** How a variable's initial value is produced on one replica. */
  datatype InitialValue =
    | SendAndKeep(groupSize: int)   // broadcast_send to the group, keep own value
    | Receive(groupSize: int)       // broadcast_recv from the chief
    | KeepLocal                     // a single worker evaluates it itself
    | FromPrimary                   // later replicas copy the primary variable

  /** _get_variable_creator_initial_value: the first replica of each worker
      takes part in a broadcast over the first devices of all workers (group
      size num_workers); the chief sends and the others receive. With a single
      worker there is no broadcast. */
  function InitialValuePlan(replicaId: nat, numWorkers: int, isChief: bool): (r: InitialValue)
    ensures replicaId != 0 <==> r == FromPrimary
    ensures replicaId == 0 && numWorkers > 1 ==> r == (if isChief then SendAndKeep(numWorkers) else Receive(numWorkers))
    ensures r == KeepLocal <==> replicaId == 0 && numWorkers <= 1
  {
    if replicaId != 0 then FromPrimary
    else if numWorkers > 1 then (if isChief then SendAndKeep(numWorkers) else Receive(numWorkers))
    else KeepLocal
  }

  /** In a cluster whose workers agree on their number and have exactly one
      chief, exactly one first replica sends and all the others receive. */
  lemma OneSenderPerBroadcast(chiefs: seq<bool>, chief: nat)
    requires |chiefs| > 1 && chief < |chiefs|
    requires forall w :: 0 <= w < |chiefs| ==> (chiefs[w] <==> w == chief)
    ensures forall w :: 0 <= w < |chiefs| ==>
              (InitialValuePlan(0, |chiefs|, chiefs[w]).SendAndKeep? <==> w == chief)
              && (w != chief ==> InitialValuePlan(0, |chiefs|, chiefs[w]) == Receive(|chiefs|))
  {
  }

  // ---------------------------------------------------------------------
  // The peer-health check
  // ---------------------------------------------------------------------

  /** What one check_collective_ops_peer_health call does. */
  datatype Probe = Healthy | PeerUnavailable | PeerFailedPrecondition | PeerOtherError

  /** The result of probing one peer with retries: alive after `attempts`
      probes, or down with the status the collectives are aborted with. */
  datatype PeerVerdict = Alive(attempts: nat) | Down(code: Code, attempts: nat)

  /** The retry loop for one peer, from probe number `attempts` on:
      Unavailable and FailedPrecondition are retried while attempts <
      retry_limit and then abort with UNAVAILABLE; any other exception aborts
      with INTERNAL at once. */
  function ProbePeer(outcomes: nat -> Probe, attempts: nat, limit: int): PeerVerdict
    requires attempts >= 1
    decreases if limit > attempts then limit - attempts else 0
  {
    match outcomes(attempts)
    case Healthy => Alive(attempts)
    case PeerOtherError => Down(Internal, attempts)
    case _ => if attempts < limit then ProbePeer(outcomes, attempts + 1, limit) else Down(Unavailable, attempts)
  }

  predicate Retryable(p: Probe)
  {
    p == PeerUnavailable || p == PeerFailedPrecondition
  }

  /** A peer is probed at least once and at most max(retry_limit, 1) times;
      it is alive exactly when a probe succeeds, every probe before the last
      failed with a retryable error, and it is declared UNAVAILABLE only
      after max(retry_limit, 1) retryable failures in a row. */
  lemma {:induction false} ProbePeerBounds(outcomes: nat -> Probe, attempts: nat, limit: int)
    requires attempts >= 1
    ensures var v := ProbePeer(outcomes, attempts, limit);
            attempts <= v.attempts <= Max(limit, attempts)
            && (forall j :: attempts <= j < v.attempts ==> Retryable(outcomes(j)))
            && (v.Alive? <==> outcomes(v.attempts) == Healthy)
            && (v.Down? ==> v.code == Unavailable || v.code == Internal)
            && (v.Down? && v.code == Internal <==> outcomes(v.attempts) == PeerOtherError)
            && (v.Down? && v.code == Unavailable ==> v.attempts == Max(limit, attempts) && Retryable(outcomes(v.attempts)))
    decreases if limit > attempts then limit - attempts else 0
  {
    if Retryable(outcomes(attempts)) && attempts < limit {
      ProbePeerBounds(outcomes, attempts + 1, limit);
    }
  }

  /** One peer to probe: a job name and a task index. */
  datatype Peer = Peer(job: string, task: nat)

  /** The peers in the order the check visits them: job by job, and within a
      job by task index. */
  function Peers(jobs: seq<Job>): (r: seq<Peer>)
    ensures |jobs| == 0 ==> r == []
  {
    if jobs == [] then [] else Peers(jobs[..|jobs| - 1]) + TasksOf(jobs[|jobs| - 1].name, jobs[|jobs| - 1].numTasks)
  }

  function TasksOf(job: string, n: nat): (r: seq<Peer>)
    ensures |r| == n && forall t :: 0 <= t < n ==> r[t] == Peer(job, t)
  {
    if n == 0 then [] else TasksOf(job, n - 1) + [Peer(job, n - 1)]
  }

  /** "/job:{}/replica:0/task:{}". */
  function PeerName(p: Peer): string
  {
    "/job:" + p.job + "/replica:0/task:" + NatToString(p.task)
  }

  /** The probe outcomes the health loop sees: probe(round, peer, attempt)
      is the outcome of the attempt-th probe of the peer-th peer in the
      round-th pass. */
  type Prober = (nat, nat, nat) -> Probe

  function PeerOutcomes(probe: Prober, round: nat, peer: nat): nat -> Probe
  {
    (a: nat) => probe(round, peer, a)
  }

  /** The first peer from index i on that is down in a pass, with the status
      to abort with. */
  function RoundFrom(n: nat, probe: Prober, round: nat, limit: int, i: nat): (r: Option<(nat, Code)>)
    requires i <= n
    ensures r.Some? ==> i <= r.value.0 < n
    decreases n - i
  {
    if i == n then None
    else match ProbePeer(PeerOutcomes(probe, round, i), 1, limit)
      case Down(code, _) => Some((i, code))
      case Alive(_) => RoundFrom(n, probe, round, limit, i + 1)
  }

  /** How the health loop ends: the stop event was seen before pass
      `rounds`, or the collectives were aborted with a status because the
      named peer was found down in pass `round`. */
  datatype HealthOutcome = Stopped(rounds: nat) | CollectivesAborted(code: Code, peer: string, round: nat)

  /** _check_health from pass `round` on, when the stop event is first seen
      set at the start of pass `stop`. */
  function HealthFrom(peers: seq<Peer>, probe: Prober, limit: int, stop: nat, round: nat): HealthOutcome
    decreases if stop > round then stop - round else 0
  {
    if round >= stop then Stopped(round)
    else match RoundFrom(|peers|, probe, round, limit, 0)
      case Some((i, code)) => CollectivesAborted(code, PeerName(peers[i]), round)
      case None => HealthFrom(peers, probe, limit, stop, round + 1)
  }

  /** When every peer answers every probe, the loop runs until it is stopped
      and never aborts. */
  lemma {:induction false} HealthyClusterNeverAborts(peers: seq<Peer>, probe: Prober, limit: int, stop: nat, round: nat)
    requires forall r, p, a :: probe(r, p, a) == Healthy
    requires round <= stop
    ensures HealthFrom(peers, probe, limit, stop, round) == Stopped(stop)
    decreases stop - round
  {
    if round < stop {
      AllAliveRound(|peers|, probe, round, limit, 0);
      HealthyClusterNeverAborts(peers, probe, limit, stop, round + 1);
    }
  }

  lemma {:induction false} AllAliveRound(n: nat, probe: Prober, round: nat, limit: int, i: nat)
    requires i <= n
    requires forall r, p, a :: probe(r, p, a) == Healthy
    ensures RoundFrom(n, probe, round, limit, i) == None
    decreases n - i
  {
    if i < n {
      assert PeerOutcomes(probe, round, i)(1) == Healthy;
      AllAliveRound(n, probe, round, limit, i + 1);
    }
  }

  /** An abort names the first peer found down: it happens in a pass before
      the stop, every earlier pass found every peer alive, every earlier peer
      of the same pass was alive, and the named peer's probes failed as
      ProbePeer says. Nothing is probed after the abort, since the loop
      returns. */
  lemma {:induction false} AbortIsFirstFailure(peers: seq<Peer>, probe: Prober, limit: int, stop: nat, round: nat)
    requires HealthFrom(peers, probe, limit, stop, round).CollectivesAborted?
    ensures var o := HealthFrom(peers, probe, limit, stop, round);
            round <= o.round < stop
            && (forall r :: round <= r < o.round ==> RoundFrom(|peers|, probe, r, limit, 0) == None)
            && RoundFrom(|peers|, probe, o.round, limit, 0).Some?
            && var (i, code) := RoundFrom(|peers|, probe, o.round, limit, 0).value;
               o.code == code && o.peer == PeerName(peers[i])
               && ProbePeer(PeerOutcomes(probe, o.round, i), 1, limit) == Down(code, ProbePeer(PeerOutcomes(probe, o.round, i), 1, limit).attempts)
               && (forall j :: 0 <= j < i ==> ProbePeer(PeerOutcomes(probe, o.round, j), 1, limit).Alive?)
    decreases if stop > round then stop - round else 0
  {
    var o := HealthFrom(peers, probe, limit, stop, round);
    if RoundFrom(|peers|, probe, round, limit, 0).None? {
      AbortIsFirstFailure(peers, probe, limit, stop, round + 1);
    } else {
      RoundFromFirst(|peers|, probe, round, limit, 0);
    }
  }

  lemma {:induction false} RoundFromFirst(n: nat, probe: Prober, round: nat, limit: int, i: nat)
    requires i <= n && RoundFrom(n, probe, round, limit, i).Some?
    ensures var (k, code) := RoundFrom(n, probe, round, limit, i).value;
            ProbePeer(PeerOutcomes(probe, round, k), 1, limit).Down?
            && ProbePeer(PeerOutcomes(probe, round, k), 1, limit).code == code
            && forall j :: i <= j < k ==> ProbePeer(PeerOutcomes(probe, round, j), 1, limit).Alive?
    decreases n - i
  {
    if ProbePeer(PeerOutcomes(probe, round, i), 1, limit).Alive? {
      RoundFromFirst(n, probe, round, limit, i + 1);
    }
  }

  // ---------------------------------------------------------------------
  // The strategy object
  // ---------------------------------------------------------------------

  /** The check-health class attributes. */
  const EnableCheckHealth := true
  const CheckHealthInterval := 30
  const CheckHealthInitialTimeout := 0
  const CheckHealthRetryLimit := 3

  /** Where this worker sits in the cluster: the cluster spec's jobs, the
      task, its position among the workers, the number of workers and
      whether it is the chief. */
  datatype ClusterInfo = ClusterInfo(
    clusterJobs: Option<seq<Job>>,
    taskType: Option<string>,
    taskId: Option<int>,
    idInCluster: int,
    numWorkers: int,
    isChief: bool)

  /** The devices of this worker: its replicas, the worker (host) device,
      the GPU count and the default device. */
  datatype DeviceInfo = DeviceInfo(
    localDevices: seq<string>,
    workerDevice: string,
    numGpusPerWorker: nat,
    defaultDevice: Option<string>)

  /** The attributes of a CollectiveAllReduceExtended that initialisation
      sets, as one value. */
  datatype StrategyState = StrategyState(
    communication: Communication,
    cluster: ClusterInfo,
    devices: DeviceInfo,
    crossDeviceOps: CrossDeviceOps,
    hostCrossDeviceOps: CrossDeviceOps,
    localOrStandaloneClientMode: bool,
    healthThreadStarted: bool)

  /** The state _initialize_local leaves: a single chief worker whose compute
      channel spans the local devices (the given ones, else one per GPU, else
      the CPU) and whose host channel has group size 1. */
  function InitializedLocal(s: StrategyState, numGpus: nat, devices: seq<string>): StrategyState
  {
    var local := if devices != [] then devices else LocalDevices("", numGpus, CpuDevice);
    s.(cluster := ClusterInfo(None, None, None, 0, 1, true),
       devices := s.devices.(localDevices := local, workerDevice := CpuDevice, numGpusPerWorker := numGpus),
       crossDeviceOps := CrossDeviceOps(local, |local|, s.communication),
       hostCrossDeviceOps := CrossDeviceOps([CpuDevice], 1, Ring),
       localOrStandaloneClientMode := true)
  }

  /** What _initialize_multi_worker does. A missing task type or id raises
      ValueError before anything is recorded; a cluster without worker,
      chief or evaluator tasks raises ValueError after the cluster, task, id
      and worker count have been recorded. Otherwise the compute channel
      spans the local devices of every worker and the host channel one
      device per worker. The health thread then starts in eager mode after
      the barrier; a barrier that times out raises RuntimeError. */
  function InitializedMultiWorker(s: StrategyState, resolver: ClusterResolver, eager: bool, barrierInTime: bool)
    : (StrategyState, Option<PyException>)
  {
    if resolver.taskType.None? || resolver.taskId.None? then (s, Some(ValueError))
    else
      var recorded := s.(cluster := ClusterInfo(Some(resolver.jobs), resolver.taskType, resolver.taskId,
                                                resolver.idInCluster, resolver.workerCount, s.cluster.isChief));
      if resolver.workerCount == 0 then (recorded, Some(ValueError))
      else
        var device := TaskDevice(resolver.taskType.value, resolver.taskId.value);
        var local := LocalDevices(device, resolver.numGpus, device);
        var configured := recorded.(cluster := recorded.cluster.(isChief := resolver.isChief),
                                    devices := DeviceInfo(local, device, resolver.numGpus, Some(device)),
                                    crossDeviceOps := CrossDeviceOps(local, |local| * resolver.workerCount, s.communication),
                                    hostCrossDeviceOps := CrossDeviceOps([device], resolver.workerCount, Ring));
        if EnableCheckHealth then StartedCheckHealth(configured, eager, barrierInTime) else (configured, None)
  }

  /** What _start_check_health_thread does: outside eager mode nothing. In
      eager mode a dummy SUM reduce on the host channel, with the initial
      timeout as its hint, acts as a barrier; if it times out RuntimeError is
      raised, otherwise the health thread starts. */
  function StartedCheckHealth(s: StrategyState, eager: bool, barrierInTime: bool): (StrategyState, Option<PyException>)
  {
    if !eager then (s, None)
    else if !barrierInTime then (s.(healthThreadStarted := false), Some(RuntimeError))
    else (s.(healthThreadStarted := true), None)
  }

  /** _num_replicas_in_sync: local devices times workers. */
  function NumReplicasInSync(s: StrategyState): int
  {
    |s.devices.localDevices| * s.cluster.numWorkers
  }

  /** Local initialisation gives a chief that is the only worker; its compute
      channel covers every replica in sync and its host channel has one
      member. */
  lemma LocalGroupSizes(s: StrategyState, numGpus: nat, devices: seq<string>)
    ensures var t := InitializedLocal(s, numGpus, devices);
            t.cluster.isChief && t.cluster.numWorkers == 1 && |t.devices.localDevices| >= 1
            && t.crossDeviceOps.devices == t.devices.localDevices
            && t.crossDeviceOps.groupSize == NumReplicasInSync(t) == |t.devices.localDevices|
            && t.hostCrossDeviceOps.groupSize == 1
            && (devices == [] ==> |t.devices.localDevices| == (if numGpus > 0 then numGpus else 1))
  {
    LocalDevicesShape("", numGpus, CpuDevice);
  }

  /** Multi-worker initialisation fails with ValueError exactly when the task
      type or id is missing or there are no workers; a barrier that times out
      in eager mode is a RuntimeError. When it succeeds the compute channel's
      group is every replica in sync (local devices × workers) and the host
      channel's group is one device per worker. */
  lemma MultiWorkerGroupSizes(s: StrategyState, resolver: ClusterResolver, eager: bool, barrierInTime: bool)
    ensures var (t, exc) := InitializedMultiWorker(s, resolver, eager, barrierInTime);
            (exc == Some(ValueError) <==> resolver.taskType.None? || resolver.taskId.None? || resolver.workerCount == 0)
            && (exc == Some(RuntimeError) <==>
                  resolver.taskType.Some? && resolver.taskId.Some? && resolver.workerCount > 0 && eager && !barrierInTime)
            && (resolver.taskType.Some? && resolver.taskId.Some? && resolver.workerCount > 0 ==>
                  t.cluster.numWorkers == resolver.workerCount && t.cluster.isChief == resolver.isChief
                  && |t.devices.localDevices| == (if resolver.numGpus > 0 then resolver.numGpus else 1)
                  && t.crossDeviceOps.devices == t.devices.localDevices
                  && t.crossDeviceOps.groupSize == NumReplicasInSync(t)
                  && t.hostCrossDeviceOps == CrossDeviceOps([t.devices.workerDevice], t.cluster.numWorkers, Ring)
                  && t.devices.workerDevice == TaskDevice(resolver.taskType.value, resolver.taskId.value))
  {
    if resolver.taskType.Some? && resolver.taskId.Some? && resolver.workerCount > 0 {
      var device := TaskDevice(resolver.taskType.value, resolver.taskId.value);
      LocalDevicesShape(device, resolver.numGpus, device);
    }
  }

  class CollectiveAllReduceExtended {
    var communication: Communication
    var cluster: ClusterInfo
    var devices: DeviceInfo
    var crossDeviceOps: CrossDeviceOps
    var hostCrossDeviceOps: CrossDeviceOps
    var localOrStandaloneClientMode: bool
    var healthThreadStarted: bool
    var checkHealthRetryLimit: int

    /** The attributes initialisation sets. */
    function State(): StrategyState
      reads this
    {
      StrategyState(communication, cluster, devices, crossDeviceOps, hostCrossDeviceOps,
                    localOrStandaloneClientMode, healthThreadStarted)
    }

    /** The attributes before _initialize_strategy runs. */
    constructor (communication: Communication)
      ensures this.communication == communication && checkHealthRetryLimit == CheckHealthRetryLimit
      ensures !localOrStandaloneClientMode && !healthThreadStarted && cluster.clusterJobs.None?
    {
      this.communication := communication;
      cluster := ClusterInfo(None, None, None, 0, 0, false);
      devices := DeviceInfo([], "", 0, None);
      crossDeviceOps := CrossDeviceOps([], 0, communication);
      hostCrossDeviceOps := CrossDeviceOps([], 0, Ring);
      localOrStandaloneClientMode := false;
      checkHealthRetryLimit := CheckHealthRetryLimit;
      healthThreadStarted := false;
    }

    /** _initialize_local. */
    method InitializeLocal(numGpus: nat, devices: seq<string>)
      modifies this
      ensures State() == InitializedLocal(old(State()), numGpus, devices)
      ensures checkHealthRetryLimit == old(checkHealthRetryLimit)
    {
      var local := if devices != [] then devices else LocalDevices("", numGpus, CpuDevice);
      var workerDevice := CpuDevice;
      cluster := cluster.(isChief := true, numWorkers := 1);
      crossDeviceOps := CrossDeviceOps(local, |local|, communication);
      hostCrossDeviceOps := CrossDeviceOps([workerDevice], cluster.numWorkers, Ring);
      cluster := cluster.(clusterJobs := None, taskType := None, taskId := None, idInCluster := 0);
      localOrStandaloneClientMode := true;
      this.devices := this.devices.(localDevices := local, workerDevice := workerDevice, numGpusPerWorker := numGpus);
    }

    /** _initialize_multi_worker. */
    method InitializeMultiWorker(resolver: ClusterResolver, eager: bool, barrierInTime: bool)
      returns (exc: Option<PyException>)
      modifies this
      ensures (State(), exc) == InitializedMultiWorker(old(State()), resolver, eager, barrierInTime)
      ensures checkHealthRetryLimit == old(checkHealthRetryLimit)
    {
      if resolver.taskType.None? || resolver.taskId.None? {
        return Some(ValueError);
      }
      cluster := cluster.(clusterJobs := Some(resolver.jobs), taskType := resolver.taskType,
                          taskId := resolver.taskId, idInCluster := resolver.idInCluster,
                          numWorkers := resolver.workerCount);
      if cluster.numWorkers == 0 {
        return Some(ValueError);
      }
      cluster := cluster.(isChief := resolver.isChief);
      var workerDevice := TaskDevice(resolver.taskType.value, resolver.taskId.value);
      var local := LocalDevices(workerDevice, resolver.numGpus, workerDevice);
      crossDeviceOps := CrossDeviceOps(local, |local| * cluster.numWorkers, communication);
      hostCrossDeviceOps := CrossDeviceOps([workerDevice], cluster.numWorkers, Ring);
      devices := DeviceInfo(local, workerDevice, resolver.numGpus, Some(workerDevice));
      exc := None;
      if EnableCheckHealth {
        exc := StartCheckHealthThread(eager, barrierInTime);
      }
    }

    /** _start_check_health_thread. */
    method StartCheckHealthThread(eager: bool, barrierInTime: bool) returns (exc: Option<PyException>)
      modifies this`healthThreadStarted
      ensures (State(), exc) == StartedCheckHealth(old(State()), eager, barrierInTime)
    {
      if !eager {
        return None;
      }
      var hints := CU.MakeHints(0, Some(CheckHealthInitialTimeout as real));
      assert hints.Returned?;
      if !barrierInTime {
        healthThreadStarted := false;
        return Some(RuntimeError);
      }
      healthThreadStarted := true;
      return None;
    }

    /** _initialize_strategy: multi-worker when the cluster spec has a job,
        local otherwise. */
    method InitializeStrategy(resolver: ClusterResolver, eager: bool, barrierInTime: bool)
      returns (exc: Option<PyException>)
      modifies this
      ensures resolver.jobs == [] ==> exc.None? && State() == InitializedLocal(old(State()), resolver.numGpus, [])
      ensures resolver.jobs != [] ==> (State(), exc) == InitializedMultiWorker(old(State()), resolver, eager, barrierInTime)
    {
      if resolver.jobs != [] {
        exc := InitializeMultiWorker(resolver, eager, barrierInTime);
      } else {
        InitializeLocal(resolver.numGpus, []);
        exc := None;
      }
    }

    /** _get_cross_device_ops. */
    function GetCrossDeviceOps(v: Value): (r: CrossDeviceOps)
      reads this
      ensures NumDevicesOf(v) == |devices.localDevices| ==> r == crossDeviceOps
      ensures NumDevicesOf(v) != |devices.localDevices| ==> r == hostCrossDeviceOps
    {
      if ChooseChannel(v, |devices.localDevices|) == ComputeChannel then crossDeviceOps else hostCrossDeviceOps
    }

    /** _experimental_distribute_values_from_function: one value context per
        local replica, numbered as ReplicaId numbers them, each carrying the
        number of replicas in sync. */
    method ValueContexts() returns (contexts: seq<(int, int)>)
      ensures |contexts| == |devices.localDevices|
      ensures forall l :: 0 <= l < |contexts| ==>
                contexts[l] == (cluster.idInCluster * |devices.localDevices| + l, NumReplicasInSync(State()))
    {
      var numLocal := |devices.localDevices|;
      contexts := [];
      var l := 0;
      while l < numLocal
        invariant 0 <= l <= numLocal
        invariant |contexts| == l
        invariant forall k :: 0 <= k < l ==> contexts[k] == (cluster.idInCluster * numLocal + k, NumReplicasInSync(State()))
      {
        contexts := contexts + [(cluster.idInCluster * numLocal + l, NumReplicasInSync(State()))];
        l := l + 1;
      }
    }

    /** _check_health, run as a loop over the probe outcomes: each pass
        visits every peer of the cluster spec, retrying a peer while it
        answers Unavailable or FailedPrecondition and fewer than retry_limit
        attempts were made. The first peer found down aborts the collectives
        (UNAVAILABLE, or INTERNAL for any other exception) and ends the loop;
        the loop also ends when the stop event is seen, before pass `stop`.
        The sleep between passes is not modelled. */
    method CheckHealth(probe: Prober, stop: nat) returns (outcome: HealthOutcome)
      requires cluster.clusterJobs.Some?
      ensures outcome == HealthFrom(Peers(cluster.clusterJobs.value), probe, checkHealthRetryLimit, stop, 0)
    {
      var peers := Peers(cluster.clusterJobs.value);
      var limit := checkHealthRetryLimit;
      var round := 0;
      while true
        invariant HealthFrom(peers, probe, limit, stop, round) == HealthFrom(peers, probe, limit, stop, 0)
        decreases if stop > round then stop - round else 0
      {
        if round >= stop {
          return Stopped(round);
        }
        var down := CheckPass(peers, probe, round, limit);
        if down.Some? {
          return CollectivesAborted(down.value.1, PeerName(peers[down.value.0]), round);
        }
        round := round + 1;
      }
    }
  }

  /** One pass of the health loop: probe the peers in order and stop at the
      first one found down. */
  method CheckPass(peers: seq<Peer>, probe: Prober, round: nat, limit: int) returns (down: Option<(nat, Code)>)
    ensures down == RoundFrom(|peers|, probe, round, limit, 0)
  {
    var i := 0;
    while i < |peers|
      invariant 0 <= i <= |peers|
      invariant RoundFrom(|peers|, probe, round, limit, i) == RoundFrom(|peers|, probe, round, limit, 0)
    {
      var verdict := ProbeWithRetries(PeerOutcomes(probe, round, i), limit);
      if verdict.Down? {
        return Some((i, verdict.code));
      }
      i := i + 1;
    }
    return None;
  }

  /** The retry loop for one peer: `attempts` counts the probes made. */
  method ProbeWithRetries(outcomes: nat -> Probe, limit: int) returns (verdict: PeerVerdict)
    ensures verdict == ProbePeer(outcomes, 1, limit)
  {
    var attempts := 0;
    while true
      invariant attempts == 0 || ProbePeer(outcomes, attempts + 1, limit) == ProbePeer(outcomes, 1, limit)
      invariant attempts > 0 ==> attempts < limit
      decreases if limit > attempts then limit - attempts else 0
    {
      attempts := attempts + 1;
      match outcomes(attempts)
      case Healthy =>
        return Alive(attempts);
      case PeerOtherError =>
        return Down(Internal, attempts);
      case _ =>
        if attempts < limit {
          continue;
        }
        return Down(Unavailable, attempts);
    }
  }
}
