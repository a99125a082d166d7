// The tf.data service dispatcher's journaled state: every change arrives as
// an Update that Apply dispatches to one handler; lookups report NotFound.
module DispatcherState {
  import opened Common

  datatype NamedJobKey = NamedJobKey(name: string, index: int)

  datatype Dataset = Dataset(datasetId: int, fingerprint: int)

  datatype Worker = Worker(address: string)

  /** A job; processing mode is an uninterpreted enum value. */
  datatype Job = Job(
    jobId: int, datasetId: int, processingMode: int,
    namedJobKey: Option<NamedJobKey>, numClients: int,
    lastClientReleasedMicros: int, finished: bool)

  datatype Task = Task(
    taskId: int, jobId: int, datasetId: int, workerAddress: string,
    finished: bool)

  /** One journal entry; NotSet is an Update whose oneof is empty. */
  datatype Update =
    | RegisterDataset(datasetId: int, fingerprint: int)
    | RegisterWorker(workerAddress: string)
    | CreateJob(jobId: int, datasetId: int, processingMode: int,
                namedJobKey: Option<NamedJobKey>)
    | AcquireJobClient(jobClientId: int, jobId: int)
    | ReleaseJobClient(jobClientId: int, timeMicros: int)
    | CreateTask(taskId: int, jobId: int, datasetId: int, workerAddress: string)
    | FinishTask(taskId: int)
    | NotSet

  /** True iff every task listed in `ids` is finished. */
  predicate AllFinished(ids: seq<int>, tasks: map<int, Task>)
    requires forall k :: 0 <= k < |ids| ==> ids[k] in tasks
  {
    forall k :: 0 <= k < |ids| ==> tasks[ids[k]].finished
  }

  /** Every task id an index lists is a stored task. */
  predicate Listed<K>(index: map<K, seq<int>>, tasks: map<int, Task>)
  {
    forall j :: j in index ==> forall k :: 0 <= k < |index[j]| ==> index[j][k] in tasks
  }

  /** The list of a key, or the empty list when the key has none. */
  function ListOf<K>(index: map<K, seq<int>>, key: K): (r: seq<int>)
    ensures key in index ==> r == index[key]
    ensures key !in index ==> r == []
  {
    if key in index then index[key] else []
  }

  /** Appending a newly stored task to one key's list keeps every listed id
      stored. */
  lemma ListedAppend<K>(index: map<K, seq<int>>, tasks: map<int, Task>, key: K, t: Task)
    requires Listed(index, tasks)
    ensures Listed(index[key := ListOf(index, key) + [t.taskId]], tasks[t.taskId := t])
  {
    var index' := index[key := ListOf(index, key) + [t.taskId]];
    var tasks' := tasks[t.taskId := t];
    forall j | j in index' ensures forall k :: 0 <= k < |index'[j]| ==> index'[j][k] in tasks' {
      if j == key {
        forall k | 0 <= k < |index'[j]| ensures index'[j][k] in tasks' {
          if k < |ListOf(index, key)| { assert index'[j][k] == ListOf(index, key)[k]; }
        }
      }
    }
  }

  class DispatcherState {
    var datasetsById: map<int, Dataset>
    var datasetsByFingerprint: map<int, Dataset>
    var nextAvailableDatasetId: int
    var workers: map<string, Worker>
    var tasksByWorker: map<string, seq<int>>
    var jobs: map<int, Job>
    var namedJobs: map<NamedJobKey, int>
    var nextAvailableJobId: int
    var jobsForClientIds: map<int, int>
    var nextAvailableJobClientId: int
    var tasks: map<int, Task>
    var tasksByJob: map<int, seq<int>>
    var nextAvailableTaskId: int

    /** Shared pointers are modelled by ids: every list names stored tasks,
        every client and named job points at a stored job. */
    ghost predicate Valid()
      reads this
    {
      && Listed(tasksByJob, tasks)
      && Listed(tasksByWorker, tasks)
      && (forall t :: t in tasks ==> tasks[t].jobId in tasksByJob)
      && (forall c :: c in jobsForClientIds ==> jobsForClientIds[c] in jobs)
      && (forall j :: j in jobs ==> jobs[j].numClients >= 0)
    }

    constructor ()
      ensures Valid()
      ensures datasetsById == map[] && datasetsByFingerprint == map[]
      ensures workers == map[] && tasksByWorker == map[] && jobs == map[]
      ensures namedJobs == map[] && jobsForClientIds == map[]
      ensures tasks == map[] && tasksByJob == map[]
      ensures nextAvailableDatasetId == 0 && nextAvailableJobId == 0
      ensures nextAvailableJobClientId == 0 && nextAvailableTaskId == 0
    {
      datasetsById, datasetsByFingerprint := map[], map[];
      workers, tasksByWorker, jobs, namedJobs := map[], map[], map[], map[];
      jobsForClientIds, tasks, tasksByJob := map[], map[], map[];
      nextAvailableDatasetId, nextAvailableJobId := 0, 0;
      nextAvailableJobClientId, nextAvailableTaskId := 0, 0;
    }

    /** The DCHECKs each handler makes of the state it is applied to. */
    ghost predicate Applicable(u: Update)
      reads this
    {
      match u
      case RegisterDataset(id, fp) =>
        id !in datasetsById && fp !in datasetsByFingerprint
      case RegisterWorker(a) => a !in workers
      case CreateJob(id, _, _, key) =>
        id !in jobs && (key.Some? ==> key.value !in namedJobs)
      case AcquireJobClient(c, j) => c !in jobsForClientIds && j in jobs
      case ReleaseJobClient(c, _) =>
        c in jobsForClientIds && jobsForClientIds[c] in jobs &&
        jobs[jobsForClientIds[c]].numClients > 0
      case CreateTask(t, _, _, _) => t !in tasks
      case FinishTask(t) => t in tasks && tasks[t].jobId in jobs
      case NotSet => true
    }

    method Apply(u: Update) returns (status: Code)
      requires Valid() && Applicable(u)
      modifies this
      ensures Valid()
      ensures status == (if u.NotSet? then Internal else Ok)
      ensures Applied(u)
    {
      match u {
        case RegisterDataset(id, fp) => RegisterDatasetUpdate(id, fp);
        case RegisterWorker(a) => RegisterWorkerUpdate(a);
        case CreateJob(id, ds, mode, key) => CreateJobUpdate(id, ds, mode, key);
        case AcquireJobClient(c, j) => AcquireJobClientUpdate(c, j);
        case ReleaseJobClient(c, t) => ReleaseJobClientUpdate(c, t);
        case CreateTask(t, j, ds, a) => CreateTaskUpdate(t, j, ds, a);
        case FinishTask(t) => FinishTaskUpdate(t);
        case NotSet => return Internal;
      }
      return Ok;
    }

    /** The whole new state after `u`; an unset update changes nothing. */
    twostate predicate Applied(u: Update)
      reads this
    {
      match u
      case RegisterDataset(id, fp) => RegisteredDataset(id, fp)
      case RegisterWorker(a) => RegisteredWorker(a)
      case CreateJob(id, ds, mode, key) => CreatedJob(id, ds, mode, key)
      case AcquireJobClient(c, j) => AcquiredJobClient(c, j)
      case ReleaseJobClient(c, t) => ReleasedJobClient(c, t)
      case CreateTask(t, j, ds, a) => CreatedTask(t, j, ds, a)
      case FinishTask(t) => FinishedTask(t)
      case NotSet => unchanged(this)
    }

    twostate predicate RegisteredDataset(id: int, fingerprint: int)
      reads this
    {
      && datasetsById == old(datasetsById)[id := Dataset(id, fingerprint)]
      && datasetsByFingerprint == old(datasetsByFingerprint)[fingerprint := Dataset(id, fingerprint)]
      && nextAvailableDatasetId == Max(old(nextAvailableDatasetId), id + 1)
      && unchanged(this`workers, this`tasksByWorker, this`jobs, this`namedJobs)
      && unchanged(this`nextAvailableJobId, this`jobsForClientIds)
      && unchanged(this`nextAvailableJobClientId, this`tasks, this`tasksByJob)
      && unchanged(this`nextAvailableTaskId)
    }

    method RegisterDatasetUpdate(id: int, fingerprint: int)
      requires Valid() && id !in datasetsById && fingerprint !in datasetsByFingerprint
      modifies this
      ensures Valid() && RegisteredDataset(id, fingerprint)
      ensures nextAvailableDatasetId >= id + 1
    {
      var dataset := Dataset(id, fingerprint);
      datasetsById := datasetsById[id := dataset];
      datasetsByFingerprint := datasetsByFingerprint[fingerprint := dataset];
      nextAvailableDatasetId := Max(nextAvailableDatasetId, id + 1);
    }

    twostate predicate RegisteredWorker(address: string)
      reads this
    {
      && workers == old(workers)[address := Worker(address)]
      && tasksByWorker == old(tasksByWorker)[address := []]
      && unchanged(this`datasetsById, this`datasetsByFingerprint)
      && unchanged(this`nextAvailableDatasetId, this`jobs, this`namedJobs)
      && unchanged(this`nextAvailableJobId, this`jobsForClientIds)
      && unchanged(this`nextAvailableJobClientId, this`tasks, this`tasksByJob)
      && unchanged(this`nextAvailableTaskId)
    }

    method RegisterWorkerUpdate(address: string)
      requires Valid() && address !in workers
      modifies this
      ensures Valid() && RegisteredWorker(address)
      ensures tasksByWorker[address] == []
    {
      workers := workers[address := Worker(address)];
      tasksByWorker := tasksByWorker[address := []];
    }

    twostate predicate CreatedJob(jobId: int, datasetId: int, processingMode: int,
                                  namedJobKey: Option<NamedJobKey>)
      reads this
    {
      && jobs == old(jobs)[jobId := Job(jobId, datasetId, processingMode, namedJobKey, 0, 0, false)]
      && tasksByJob == old(tasksByJob)[jobId := []]
      && namedJobs == (if namedJobKey.Some? then old(namedJobs)[namedJobKey.value := jobId]
                       else old(namedJobs))
      && nextAvailableJobId == Max(old(nextAvailableJobId), jobId + 1)
      && unchanged(this`datasetsById, this`datasetsByFingerprint)
      && unchanged(this`nextAvailableDatasetId, this`workers, this`tasksByWorker)
      && unchanged(this`jobsForClientIds, this`nextAvailableJobClientId)
      && unchanged(this`tasks, this`nextAvailableTaskId)
    }

    method CreateJobUpdate(jobId: int, datasetId: int, processingMode: int,
                           namedJobKey: Option<NamedJobKey>)
      requires Valid() && jobId !in jobs
      requires namedJobKey.Some? ==> namedJobKey.value !in namedJobs
      modifies this
      ensures Valid() && CreatedJob(jobId, datasetId, processingMode, namedJobKey)
      ensures nextAvailableJobId >= jobId + 1
    {
      jobs := jobs[jobId := Job(jobId, datasetId, processingMode, namedJobKey, 0, 0, false)];
      // A job id may already have a task list when a task was created for it
      // earlier; the source resets that list to empty.
      tasksByJob := tasksByJob[jobId := []];
      if namedJobKey.Some? {
        namedJobs := namedJobs[namedJobKey.value := jobId];
      }
      nextAvailableJobId := Max(nextAvailableJobId, jobId + 1);
    }

    twostate predicate AcquiredJobClient(jobClientId: int, jobId: int)
      reads this
    {
      && jobId in old(jobs)
      && jobsForClientIds == old(jobsForClientIds)[jobClientId := jobId]
      && jobs == old(jobs)[jobId := old(jobs)[jobId].(numClients := old(jobs)[jobId].numClients + 1)]
      && nextAvailableJobClientId == Max(old(nextAvailableJobClientId), jobClientId + 1)
      && unchanged(this`datasetsById, this`datasetsByFingerprint)
      && unchanged(this`nextAvailableDatasetId, this`workers, this`tasksByWorker)
      && unchanged(this`namedJobs, this`nextAvailableJobId)
      && unchanged(this`tasks, this`tasksByJob, this`nextAvailableTaskId)
    }

    method AcquireJobClientUpdate(jobClientId: int, jobId: int)
      requires Valid() && jobClientId !in jobsForClientIds && jobId in jobs
      modifies this
      ensures Valid() && AcquiredJobClient(jobClientId, jobId)
    {
      jobsForClientIds := jobsForClientIds[jobClientId := jobId];
      var job := jobs[jobId];
      jobs := jobs[jobId := job.(numClients := job.numClients + 1)];
      nextAvailableJobClientId := Max(nextAvailableJobClientId, jobClientId + 1);
    }

    twostate predicate ReleasedJobClient(jobClientId: int, timeMicros: int)
      reads this
    {
      && jobClientId in old(jobsForClientIds)
      && old(jobsForClientIds)[jobClientId] in old(jobs)
      && jobsForClientIds == old(jobsForClientIds) - {jobClientId}
      && (var j := old(jobsForClientIds)[jobClientId];
          jobs == old(jobs)[j := old(jobs)[j].(numClients := old(jobs)[j].numClients - 1,
                                               lastClientReleasedMicros := timeMicros)])
      && unchanged(this`datasetsById, this`datasetsByFingerprint)
      && unchanged(this`nextAvailableDatasetId, this`workers, this`tasksByWorker)
      && unchanged(this`namedJobs, this`nextAvailableJobId, this`nextAvailableJobClientId)
      && unchanged(this`tasks, this`tasksByJob, this`nextAvailableTaskId)
    }

    method ReleaseJobClientUpdate(jobClientId: int, timeMicros: int)
      requires Valid() && jobClientId in jobsForClientIds
      requires jobs[jobsForClientIds[jobClientId]].numClients > 0
      modifies this
      ensures Valid() && ReleasedJobClient(jobClientId, timeMicros)
      ensures jobClientId !in jobsForClientIds
    {
      var jobId := jobsForClientIds[jobClientId];
      var job := jobs[jobId];
      jobs := jobs[jobId := job.(numClients := job.numClients - 1,
                                lastClientReleasedMicros := timeMicros)];
      jobsForClientIds := jobsForClientIds - {jobClientId};
    }

    twostate predicate CreatedTask(taskId: int, jobId: int, datasetId: int, workerAddress: string)
      reads this
    {
      && tasks == old(tasks)[taskId := Task(taskId, jobId, datasetId, workerAddress, false)]
      && tasksByJob == old(tasksByJob)[jobId :=
           (if jobId in old(tasksByJob) then old(tasksByJob)[jobId] else []) + [taskId]]
      && tasksByWorker == old(tasksByWorker)[workerAddress :=
           (if workerAddress in old(tasksByWorker) then old(tasksByWorker)[workerAddress]
            else []) + [taskId]]
      && nextAvailableTaskId == Max(old(nextAvailableTaskId), taskId + 1)
      && unchanged(this`datasetsById, this`datasetsByFingerprint)
      && unchanged(this`nextAvailableDatasetId, this`workers, this`jobs, this`namedJobs)
      && unchanged(this`nextAvailableJobId, this`jobsForClientIds)
      && unchanged(this`nextAvailableJobClientId)
    }

    method CreateTaskUpdate(taskId: int, jobId: int, datasetId: int, workerAddress: string)
      requires Valid() && taskId !in tasks
      modifies this
      ensures Valid() && CreatedTask(taskId, jobId, datasetId, workerAddress)
      ensures nextAvailableTaskId >= taskId + 1
    {
      var t := Task(taskId, jobId, datasetId, workerAddress, false);
      ListedAppend(tasksByJob, tasks, jobId, t);
      ListedAppend(tasksByWorker, tasks, workerAddress, t);
      tasks := tasks[taskId := t];
      tasksByJob := tasksByJob[jobId := ListOf(tasksByJob, jobId) + [taskId]];
      tasksByWorker := tasksByWorker[workerAddress := ListOf(tasksByWorker, workerAddress) + [taskId]];
      nextAvailableTaskId := Max(nextAvailableTaskId, taskId + 1);
    }

    twostate predicate FinishedTask(taskId: int)
      reads this
    {
      && taskId in old(tasks)
      && tasks == old(tasks)[taskId := old(tasks)[taskId].(finished := true)]
      && (var j := old(tasks)[taskId].jobId;
          && j in old(jobs) && j in tasksByJob
          && (forall k :: 0 <= k < |tasksByJob[j]| ==> tasksByJob[j][k] in tasks)
          && jobs == old(jobs)[j := old(jobs)[j].(finished := AllFinished(tasksByJob[j], tasks))])
      && unchanged(this`datasetsById, this`datasetsByFingerprint)
      && unchanged(this`nextAvailableDatasetId, this`workers, this`tasksByWorker)
      && unchanged(this`namedJobs, this`nextAvailableJobId, this`jobsForClientIds)
      && unchanged(this`nextAvailableJobClientId, this`tasksByJob, this`nextAvailableTaskId)
    }

    /** Marks the task finished, then recomputes the job's finished flag by
        scanning all of the job's tasks. */
    method FinishTaskUpdate(taskId: int)
      requires Valid() && taskId in tasks && tasks[taskId].jobId in jobs
      modifies this
      ensures Valid() && FinishedTask(taskId)
    {
      var task := tasks[taskId];
      tasks := tasks[taskId := task.(finished := true)];
      var forJob := tasksByJob[task.jobId];
      var allFinished := true;
      var i := 0;
      while i < |forJob|
        invariant 0 <= i <= |forJob|
        invariant allFinished <==> forall k :: 0 <= k < i ==> tasks[forJob[k]].finished
      {
        if !tasks[forJob[i]].finished {
          allFinished := false;
        }
        i := i + 1;
      }
      var job := jobs[task.jobId];
      jobs := jobs[task.jobId := job.(finished := allFinished)];
    }

    method NextAvailableDatasetId() returns (id: int)
      ensures id == nextAvailableDatasetId
    {
      id := nextAvailableDatasetId;
    }

    method NextAvailableJobId() returns (id: int)
      ensures id == nextAvailableJobId
    {
      id := nextAvailableJobId;
    }

    method NextAvailableJobClientId() returns (id: int)
      ensures id == nextAvailableJobClientId
    {
      id := nextAvailableJobClientId;
    }

    method NextAvailableTaskId() returns (id: int)
      ensures id == nextAvailableTaskId
    {
      id := nextAvailableTaskId;
    }

    method DatasetFromId(id: int) returns (r: Result<Dataset>)
      ensures r.Failure? <==> id !in datasetsById
      ensures r.Failure? ==> r.code == NotFound
      ensures r.Success? ==> r.value == datasetsById[id]
    {
      if id !in datasetsById { return Failure(NotFound); }
      return Success(datasetsById[id]);
    }

    method DatasetFromFingerprint(fingerprint: int) returns (r: Result<Dataset>)
      ensures r.Failure? <==> fingerprint !in datasetsByFingerprint
      ensures r.Failure? ==> r.code == NotFound
      ensures r.Success? ==> r.value == datasetsByFingerprint[fingerprint]
    {
      if fingerprint !in datasetsByFingerprint { return Failure(NotFound); }
      return Success(datasetsByFingerprint[fingerprint]);
    }

    method WorkerFromAddress(address: string) returns (r: Result<Worker>)
      ensures r.Failure? <==> address !in workers
      ensures r.Failure? ==> r.code == NotFound
      ensures r.Success? ==> r.value == workers[address]
    {
      if address !in workers { return Failure(NotFound); }
      return Success(workers[address]);
    }

    method JobFromId(id: int) returns (r: Result<Job>)
      ensures r.Failure? <==> id !in jobs
      ensures r.Failure? ==> r.code == NotFound
      ensures r.Success? ==> r.value == jobs[id]
    {
      if id !in jobs { return Failure(NotFound); }
      return Success(jobs[id]);
    }

    method NamedJobByKey(key: NamedJobKey) returns (r: Result<int>)
      ensures r.Failure? <==> key !in namedJobs
      ensures r.Failure? ==> r.code == NotFound
      ensures r.Success? ==> r.value == namedJobs[key]
    {
      if key !in namedJobs { return Failure(NotFound); }
      return Success(namedJobs[key]);
    }

    /** The job a client holds; a released or unknown client is NotFound. */
    method JobForJobClientId(jobClientId: int) returns (r: Result<Job>)
      requires Valid()
      ensures r.Failure? <==> jobClientId !in jobsForClientIds
      ensures r.Failure? ==> r.code == NotFound
      ensures r.Success? ==> r.value == jobs[jobsForClientIds[jobClientId]]
    {
      if jobClientId !in jobsForClientIds { return Failure(NotFound); }
      return Success(jobs[jobsForClientIds[jobClientId]]);
    }

    method TaskFromId(id: int) returns (r: Result<Task>)
      ensures r.Failure? <==> id !in tasks
      ensures r.Failure? ==> r.code == NotFound
      ensures r.Success? ==> r.value == tasks[id]
    {
      if id !in tasks { return Failure(NotFound); }
      return Success(tasks[id]);
    }

    method TasksForJob(jobId: int) returns (r: Result<seq<Task>>)
      requires Valid()
      ensures r.Failure? <==> jobId !in tasksByJob
      ensures r.Failure? ==> r.code == NotFound
      ensures r.Success? ==> |r.value| == |tasksByJob[jobId]|
      ensures r.Success? ==>
                forall k :: 0 <= k < |r.value| ==> r.value[k] == tasks[tasksByJob[jobId][k]]
    {
      if jobId !in tasksByJob { return Failure(NotFound); }
      var ids := tasksByJob[jobId];
      var out: seq<Task> := [];
      for i := 0 to |ids|
        invariant |out| == i
        invariant forall k :: 0 <= k < i ==> out[k] == tasks[ids[k]]
      {
        out := out + [tasks[ids[i]]];
      }
      return Success(out);
    }

    /** TasksForWorker appends the worker's tasks to the caller's vector,
        which keeps its old entries; on NotFound the vector is untouched. */
    method TasksForWorker(address: string, callerTasks: seq<Task>) returns (r: Result<seq<Task>>)
      requires Valid()
      ensures r.Failure? <==> address !in tasksByWorker
      ensures r.Failure? ==> r.code == NotFound
      ensures r.Success? ==> |r.value| == |callerTasks| + |tasksByWorker[address]|
      ensures r.Success? ==> r.value[..|callerTasks|] == callerTasks
      ensures r.Success? ==>
                forall k :: 0 <= k < |tasksByWorker[address]| ==>
                  r.value[|callerTasks| + k] == tasks[tasksByWorker[address][k]]
    {
      if address !in tasksByWorker { return Failure(NotFound); }
      var ids := tasksByWorker[address];
      var out: seq<Task> := callerTasks;
      for i := 0 to |ids|
        invariant |out| == |callerTasks| + i
        invariant out[..|callerTasks|] == callerTasks
        invariant forall k :: 0 <= k < i ==> out[|callerTasks| + k] == tasks[ids[k]]
      {
        out := out + [tasks[ids[i]]];
      }
      return Success(out);
    }

    /** Every registered worker once, in the map's iteration order. */
    method ListWorkers() returns (r: seq<Worker>)
      ensures |r| == |workers|
      ensures forall w :: w in r <==> w in workers.Values
    {
      r := MapValues(workers);
    }

    /** Every job once, in the map's iteration order. */
    method ListJobs() returns (r: seq<Job>)
      ensures |r| == |jobs|
      ensures forall j :: j in r <==> j in jobs.Values
    {
      r := MapValues(jobs);
    }
  }

  /** The journal scenario of acquiring and then releasing a client: the
      count returns to its old value and the client id is then unknown. */
  method AcquireThenRelease(s: DispatcherState, jobId: int, clientId: int, time: int)
    returns (lookup: Result<Job>)
    requires s.Valid() && jobId in s.jobs && clientId !in s.jobsForClientIds
    modifies s
    ensures lookup == Failure(NotFound)
    ensures jobId in s.jobs && s.jobs[jobId].numClients == old(s.jobs[jobId].numClients)
  {
    var st := s.Apply(AcquireJobClient(clientId, jobId));
    assert s.jobs[jobId].numClients > 0;
    st := s.Apply(ReleaseJobClient(clientId, time));
    lookup := s.JobForJobClientId(clientId);
  }
}
