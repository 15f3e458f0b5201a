/** The queue of export jobs, worked off by any number of workers that also prune old export files. */
module ExportQueue {
  import opened Shared

  datatype Status = Pending | Running | Completed | Failed

  /** `recoveries` and `retries` count how often a job was put back, by a worker or by a user. */
  datatype Job = Job(
    file: string, status: Status, attempts: nat, startedAt: int, objectKey: Option<string>, recoveries: nat,
        retries: nat)

  /** What a worker is doing. Pruning reads the directory and the referenced keys in either order, then deletes. */
  datatype Worker =
    | Idle
    | Holding(job: nat)
    | Written(job: nat)
    | Finishing(job: nat)
    | Pruning(listed: Option<seq<string>>, referenced: Option<set<string>>)

  datatype State = State(jobs: map<nat, Job>, workers: map<nat, Worker>, files: set<string>, managed: set<string>)

  predicate Initial(s: State) {
    s.jobs == map[] && s.files == {} && forall w :: w in s.workers ==> s.workers[w] == Idle
  }

  function WithJob(s: State, j: nat, job: Job): State {
    s.(jobs := s.jobs[j := job])
  }

  function WithWorker(s: State, w: nat, worker: Worker): State {
    s.(workers := s.workers[w := worker])
  }

  predicate Creates(s: State, t: State, j: nat, file: string) {
    j !in s.jobs && t == WithJob(s, j, Job(file, Pending, 0, 0, None, 0, 0))
  }

  /** Only one worker gets a pending job; which one, and which job, is left open. */
  predicate Claims(s: State, t: State, w: nat, j: nat, now: int) {
    && w in s.workers && s.workers[w] == Idle
    && j in s.jobs && s.jobs[j].status == Pending
    && t == WithWorker(WithJob(s, j,
                               s.jobs[j].(status := Running, startedAt := now, attempts := s.jobs[j].attempts + 1)),
                       w, Holding(j))
  }

  predicate Writes(s: State, t: State, w: nat) {
    && w in s.workers && s.workers[w].Holding? && s.workers[w].job in s.jobs
    && t == WithWorker(s, w, Written(s.workers[w].job)).(files := s.files + {s.jobs[s.workers[w].job].file})
  }

  /** A worker completes its job whatever has become of it in the meantime. */
  predicate Completes(s: State, t: State, w: nat) {
    && w in s.workers && s.workers[w].Written? && s.workers[w].job in s.jobs
    && var j := s.workers[w].job;
       t == WithWorker(WithJob(s, j, s.jobs[j].(status := Completed, objectKey := Some(s.jobs[j].file))), w,
                       Finishing(j))
  }

  /** A failure before or after completion marks the job as failed, whatever has become of it. */
  predicate Fails(s: State, t: State, w: nat) {
    && w in s.workers && (s.workers[w].Holding? || s.workers[w].Written? || s.workers[w].Finishing?)
    && s.workers[w].job in s.jobs
    && var j := s.workers[w].job;
       t == WithWorker(WithJob(s, j, s.jobs[j].(status := Failed)), w, Idle)
  }

  /** A worker finishes, gives up or starts again. */
  predicate Rests(s: State, t: State, w: nat) {
    w in s.workers && t == WithWorker(s, w, Idle)
  }

  function Recovered(job: Job, staleBefore: int): Job {
    if job.status == Running && job.startedAt < staleBefore
    then job.(status := Pending, recoveries := job.recoveries + 1) else job
  }

  /** An idle worker puts back the jobs that have been running for too long. */
  predicate Recovers(s: State, t: State, w: nat, staleBefore: int) {
    && w in s.workers && s.workers[w] == Idle
    && t == s.(jobs := map j | j in s.jobs :: Recovered(s.jobs[j], staleBefore))
  }

  predicate Retries(s: State, t: State, j: nat) {
    && j in s.jobs && s.jobs[j].status == Failed
    && t == WithJob(s, j, s.jobs[j].(status := Pending, objectKey := None, retries := s.jobs[j].retries + 1))
  }

  predicate StartsPruning(s: State, t: State, w: nat) {
    w in s.workers && s.workers[w] == Idle && t == WithWorker(s, w, Pruning(None, None))
  }

  ghost predicate ListsFiles(s: State, t: State, w: nat, names: seq<string>) {
    && w in s.workers && s.workers[w].Pruning? && s.workers[w].listed.None?
    && (forall f :: f in names <==> f in s.files)
    && t == WithWorker(s, w, s.workers[w].(listed := Some(names)))
  }

  function Referenced(jobs: map<nat, Job>): set<string> {
    set j | j in jobs && jobs[j].objectKey.Some? :: jobs[j].objectKey.value
  }

  predicate ListsReferences(s: State, t: State, w: nat) {
    && w in s.workers && s.workers[w].Pruning? && s.workers[w].referenced.None?
    && t == WithWorker(s, w, s.workers[w].(referenced := Some(Referenced(s.jobs))))
  }

  /** Takes the next name of the listing, and deletes the file if it is managed and was not referenced. */
  predicate Prunes(s: State, t: State, w: nat) {
    && w in s.workers && s.workers[w].Pruning?
    && s.workers[w].listed.Some? && s.workers[w].referenced.Some? && s.workers[w].listed.value != []
    && var name := s.workers[w].listed.value[0];
       var deleted := if name in s.managed && name !in s.workers[w].referenced.value then {name} else {};
       t == WithWorker(s, w, s.workers[w].(listed := Some(s.workers[w].listed.value[1..]))).(files := s.files - deleted)
  }

  ghost predicate Step(s: State, t: State) {
    || (exists j: nat, file :: Creates(s, t, j, file))
    || (exists w: nat, j: nat, now :: Claims(s, t, w, j, now))
    || (exists w: nat :: Writes(s, t, w))
    || (exists w: nat :: Completes(s, t, w))
    || (exists w: nat :: Fails(s, t, w))
    || (exists w: nat :: Rests(s, t, w))
    || (exists w: nat, staleBefore :: Recovers(s, t, w, staleBefore))
    || (exists j: nat :: Retries(s, t, j))
    || (exists w: nat :: StartsPruning(s, t, w))
    || (exists w: nat, names :: ListsFiles(s, t, w, names))
    || (exists w: nat :: ListsReferences(s, t, w))
    || (exists w: nat :: Prunes(s, t, w))
  }

  ghost predicate IsRun(run: seq<State>) {
    run != [] && Initial(run[0]) && forall i :: 0 <= i < |run| - 1 ==> Step(run[i], run[i + 1])
  }

  // What every job keeps.

  predicate GoodJob(job: Job) {
    && job.attempts <= job.recoveries + job.retries + (if job.status == Pending then 0 else 1)
    && (job.status == Completed ==> job.objectKey == Some(job.file))
  }

  ghost predicate GoodJobs(s: State) {
    forall j :: j in s.jobs ==> GoodJob(s.jobs[j])
  }

  lemma StepKeepsGoodJobs(s: State, t: State)
    requires GoodJobs(s) && Step(s, t)
    ensures GoodJobs(t)
  {
    hide GoodJobs;
    if exists j: nat, file :: Creates(s, t, j, file) {
      var j: nat, file :| Creates(s, t, j, file);
      hide *;
      CreatesKeepsGoodJobs(s, t, j, file);
    } else if exists w: nat, j: nat, now :: Claims(s, t, w, j, now) {
      var w: nat, j: nat, now :| Claims(s, t, w, j, now);
      hide *;
      ClaimsKeepsGoodJobs(s, t, w, j, now);
    } else if exists w: nat :: Completes(s, t, w) || Fails(s, t, w) {
      var w: nat :| Completes(s, t, w) || Fails(s, t, w);
      hide *;
      EndsKeepsGoodJobs(s, t, w);
    } else if exists w: nat, staleBefore :: Recovers(s, t, w, staleBefore) {
      var w: nat, staleBefore :| Recovers(s, t, w, staleBefore);
      hide *;
      RecoversKeepsGoodJobs(s, t, w, staleBefore);
    } else if exists j: nat :: Retries(s, t, j) {
      var j: nat :| Retries(s, t, j);
      hide *;
      RetriesKeepsGoodJobs(s, t, j);
    } else {
      hide Creates, Claims, Completes, Fails, Recovers, Retries;
      SameJobsGood(s, t);
    }
  }

  lemma SameJobsGood(s: State, t: State)
    requires GoodJobs(s) && t.jobs == s.jobs
    ensures GoodJobs(t)
  {
  }

  lemma CreatesKeepsGoodJobs(s: State, t: State, j: nat, file: string)
    requires GoodJobs(s) && Creates(s, t, j, file)
    ensures GoodJobs(t)
  {
  }

  lemma ClaimsKeepsGoodJobs(s: State, t: State, w: nat, j: nat, now: int)
    requires GoodJobs(s) && Claims(s, t, w, j, now)
    ensures GoodJobs(t)
  {
  }

  lemma EndsKeepsGoodJobs(s: State, t: State, w: nat)
    requires GoodJobs(s) && (Completes(s, t, w) || Fails(s, t, w))
    ensures GoodJobs(t)
  {
    assert GoodJob(s.jobs[s.workers[w].job]);
  }

  lemma RecoversKeepsGoodJobs(s: State, t: State, w: nat, staleBefore: int)
    requires GoodJobs(s) && Recovers(s, t, w, staleBefore)
    ensures GoodJobs(t)
  {
    forall j | j in t.jobs
      ensures GoodJob(t.jobs[j])
    {
      assert GoodJob(s.jobs[j]);
    }
  }

  lemma RetriesKeepsGoodJobs(s: State, t: State, j: nat)
    requires GoodJobs(s) && Retries(s, t, j)
    ensures GoodJobs(t)
  {
  }

  lemma {:induction false} RunKeepsGoodJobs(run: seq<State>)
    requires IsRun(run)
    ensures GoodJobs(run[|run| - 1])
    decreases |run|
  {
    hide Step;
    if |run| == 1 {
    } else {
      RunKeepsGoodJobs(run[..|run| - 1]);
      StepKeepsGoodJobs(run[|run| - 2], run[|run| - 1]);
    }
  }

  /**
   * For any number of workers: a job is attempted at most once more than it was put back, and no more than that while
   * it waits; and a completed job has its object key.
   */
  lemma AttemptsBounded(run: seq<State>, j: nat)
    requires IsRun(run) && j in run[|run| - 1].jobs
    ensures var job := run[|run| - 1].jobs[j];
      && job.attempts <= 1 + job.recoveries + job.retries
      && (job.status == Pending ==> job.attempts <= job.recoveries + job.retries)
      && (job.status == Completed ==> job.objectKey == Some(job.file))
  {
    RunKeepsGoodJobs(run);
  }

  // What keeps the files of completed jobs.

  /** A worker that prunes has read all keys of completed jobs, once it has read any. */
  predicate KnowsCompleted(s: State, w: nat)
    requires w in s.workers
  {
    s.workers[w].Pruning? && s.workers[w].referenced.Some? ==>
      forall j :: j in s.jobs && s.jobs[j].status == Completed ==> s.jobs[j].file in s.workers[w].referenced.value
  }

  predicate WrittenOnDisk(s: State, w: nat)
    requires w in s.workers
  {
    s.workers[w].Written? && s.workers[w].job in s.jobs ==> s.jobs[s.workers[w].job].file in s.files
  }

  predicate CompletedOnDisk(s: State) {
    forall j :: j in s.jobs && s.jobs[j].status == Completed ==> s.jobs[j].file in s.files
  }

  ghost predicate FilesKept(s: State) {
    && CompletedOnDisk(s)
    && forall w :: w in s.workers ==> KnowsCompleted(s, w) && WrittenOnDisk(s, w)
  }

  /** Some worker other than `w` is pruning and has read the keys. */
  predicate OtherPrunes(s: State, w: nat) {
    exists v :: v in s.workers && v != w && s.workers[v].Pruning? && s.workers[v].referenced.Some?
  }

  /** No worker is between writing a file and completing its job while another one prunes by keys it has read. */
  predicate Undisturbed(s: State) {
    forall w :: w in s.workers && s.workers[w].Written? ==> !OtherPrunes(s, w)
  }

  lemma CompletesKeepsFiles(s: State, t: State, w: nat)
    requires FilesKept(s) && Undisturbed(s) && Completes(s, t, w)
    ensures FilesKept(t)
  {
    assert WrittenOnDisk(s, w) && !OtherPrunes(s, w);
    forall v | v in t.workers
      ensures KnowsCompleted(t, v) && WrittenOnDisk(t, v)
    {
      assert KnowsCompleted(s, v) && WrittenOnDisk(s, v);
    }
  }

  /** A step that completes no job, writes and deletes no file, and reads no keys but the current ones. */
  ghost predicate Quiet(s: State, t: State) {
    && s.files == t.files && t.workers.Keys == s.workers.Keys
    && (forall j :: j in s.jobs ==> j in t.jobs && t.jobs[j].file == s.jobs[j].file)
    && (forall j :: j in t.jobs && t.jobs[j].status == Completed ==> j in s.jobs && s.jobs[j].status == Completed)
    && forall w :: w in t.workers ==> QuietWorker(s, t, w)
  }

  predicate QuietWorker(s: State, t: State, w: nat)
    requires w in s.workers && w in t.workers
  {
    && (t.workers[w].Written? ==> s.workers[w] == t.workers[w])
    && (t.workers[w].Pruning? && t.workers[w].referenced.Some? ==>
          (s.workers[w].Pruning? && s.workers[w].referenced == t.workers[w].referenced)
          || t.workers[w].referenced.value == Referenced(s.jobs))
  }

  lemma QuietKeepsFiles(s: State, t: State)
    requires GoodJobs(s) && WorkersHaveJobs(s) && FilesKept(s) && Quiet(s, t)
    ensures FilesKept(t)
  {
    forall w | w in t.workers
      ensures KnowsCompleted(t, w)
      ensures WrittenOnDisk(t, w)
    {
      assert KnowsCompleted(s, w) && WrittenOnDisk(s, w) && QuietWorker(s, t, w);
      if t.workers[w].Pruning? && t.workers[w].referenced.Some? {
        forall j | j in t.jobs && t.jobs[j].status == Completed
          ensures t.jobs[j].file in t.workers[w].referenced.value
        {
          assert GoodJob(s.jobs[j]);
        }
      }
    }
  }

  lemma WorkerQuiet(s: State, t: State, w: nat, worker: Worker)
    requires w in s.workers && t == WithWorker(s, w, worker)
    requires !worker.Written?
    requires worker.Pruning? && worker.referenced.Some? ==>
      (s.workers[w].Pruning? && s.workers[w].referenced == worker.referenced)
          || worker.referenced.value == Referenced(s.jobs)
    ensures Quiet(s, t)
  {
    hide Referenced;
  }

  lemma JobQuiet(s: State, t: State, j: nat, job: Job)
    requires t == WithJob(s, j, job) && job.status != Completed && (j in s.jobs ==> job.file == s.jobs[j].file)
    ensures Quiet(s, t)
  {
    hide Referenced;
  }

  lemma RecoversQuiet(s: State, t: State, w: nat, staleBefore: int)
    requires Recovers(s, t, w, staleBefore)
    ensures Quiet(s, t)
  {
    hide Referenced;
  }

  lemma PrunesKeepsFiles(s: State, t: State, w: nat)
    requires FilesKept(s) && Undisturbed(s) && Prunes(s, t, w)
    ensures FilesKept(t)
  {
    var name := s.workers[w].listed.value[0];
    assert KnowsCompleted(s, w);
    forall v | v in t.workers
      ensures KnowsCompleted(t, v) && WrittenOnDisk(t, v)
    {
      assert s.workers[v].Written? ==> v != w && OtherPrunes(s, v);
      assert KnowsCompleted(s, v) && WrittenOnDisk(s, v);
    }
  }

  lemma WritesKeepsFiles(s: State, t: State, w: nat)
    requires FilesKept(s) && Writes(s, t, w)
    ensures FilesKept(t)
  {
    forall v | v in t.workers
      ensures KnowsCompleted(t, v) && WrittenOnDisk(t, v)
    {
      assert KnowsCompleted(s, v) && WrittenOnDisk(s, v);
    }
  }

  lemma StepKeepsFiles(s: State, t: State)
    requires GoodJobs(s) && FilesKept(s) && WorkersHaveJobs(s) && Undisturbed(s) && Step(s, t)
    ensures FilesKept(t)
  {
    hide FilesKept, GoodJobs, Undisturbed, WorkersHaveJobs;
    if w: nat :| Completes(s, t, w) {
      CompletesKeepsFiles(s, t, w);
    } else if w: nat :| Prunes(s, t, w) {
      PrunesKeepsFiles(s, t, w);
    } else if w: nat :| Writes(s, t, w) {
      WritesKeepsFiles(s, t, w);
    } else {
      OtherStepsQuiet(s, t);
      QuietKeepsFiles(s, t);
    }
  }

  lemma OtherStepsQuiet(s: State, t: State)
    requires Step(s, t)
    requires !(exists w: nat :: Completes(s, t, w)) && !(exists w: nat :: Prunes(s, t, w))
        && !(exists w: nat :: Writes(s, t, w))
    ensures Quiet(s, t)
  {
    hide Quiet, Referenced, Completes, Prunes, Writes;
    if j: nat, file :| Creates(s, t, j, file) {
      JobQuiet(s, t, j, t.jobs[j]);
    } else if w: nat, j: nat, now :| Claims(s, t, w, j, now) {
      JobThenWorkerQuiet(s, t, j, t.jobs[j], w, t.workers[w]);
    } else if w: nat :| Fails(s, t, w) {
      JobThenWorkerQuiet(s, t, s.workers[w].job, t.jobs[s.workers[w].job], w, Idle);
    } else if w: nat :| Rests(s, t, w) {
      WorkerQuiet(s, t, w, Idle);
    } else if w: nat, staleBefore :| Recovers(s, t, w, staleBefore) {
      RecoversQuiet(s, t, w, staleBefore);
    } else if j: nat :| Retries(s, t, j) {
      JobQuiet(s, t, j, t.jobs[j]);
    } else if w: nat :| StartsPruning(s, t, w) {
      WorkerQuiet(s, t, w, t.workers[w]);
    } else if w: nat, names :| ListsFiles(s, t, w, names) {
      WorkerQuiet(s, t, w, t.workers[w]);
    } else if w: nat :| ListsReferences(s, t, w) {
      WorkerQuiet(s, t, w, t.workers[w]);
    }
  }

  lemma JobThenWorkerQuiet(s: State, t: State, j: nat, job: Job, w: nat, worker: Worker)
    requires j in s.jobs && job.status != Completed && job.file == s.jobs[j].file
    requires w in s.workers && (worker.Holding? || worker.Idle?)
    requires t == WithWorker(WithJob(s, j, job), w, worker)
    ensures Quiet(s, t)
  {
    hide Referenced;
  }

  /** Jobs are never removed, so a worker's job is there. */
  ghost predicate WorkersHaveJobs(s: State) {
    forall w :: w in s.workers && (s.workers[w].Holding? || s.workers[w].Written? || s.workers[w].Finishing?)
      ==> s.workers[w].job in s.jobs
  }

  lemma StepKeepsWorkers(s: State, t: State)
    requires WorkersHaveJobs(s) && Step(s, t)
    ensures WorkersHaveJobs(t) && t.workers.Keys == s.workers.Keys
  {
    hide Referenced;
    assert s.jobs.Keys <= t.jobs.Keys;
  }

  lemma {:induction false} RunKeepsFiles(run: seq<State>)
    requires IsRun(run) && forall i :: 0 <= i < |run| ==> Undisturbed(run[i])
    ensures FilesKept(run[|run| - 1]) && WorkersHaveJobs(run[|run| - 1])
    decreases |run|
  {
    hide Step, Undisturbed;
    if |run| == 1 {
    } else {
      var before := run[..|run| - 1];
      RunKeepsFiles(before);
      RunKeepsGoodJobs(before);
      StepKeepsWorkers(run[|run| - 2], run[|run| - 1]);
      StepKeepsFiles(run[|run| - 2], run[|run| - 1]);
    }
  }

  /** Files stay for any number of workers, if none prunes by old keys while another one is about to complete a job. */
  lemma UndisturbedFilesStay(run: seq<State>, j: nat)
    requires IsRun(run) && forall i :: 0 <= i < |run| ==> Undisturbed(run[i])
    requires j in run[|run| - 1].jobs && run[|run| - 1].jobs[j].status == Completed
    ensures run[|run| - 1].jobs[j].file in run[|run| - 1].files
  {
    RunKeepsFiles(run);
  }

  lemma {:induction false} RunKeepsWorkers(run: seq<State>)
    requires IsRun(run)
    ensures run[|run| - 1].workers.Keys == run[0].workers.Keys && WorkersHaveJobs(run[|run| - 1])
    decreases |run|
  {
    hide Step;
    if |run| == 1 {
    } else {
      RunKeepsWorkers(run[..|run| - 1]);
      StepKeepsWorkers(run[|run| - 2], run[|run| - 1]);
    }
  }

  /** With at most one worker, the file of every completed job is on disk after every step. */
  lemma OneWorkerKeepsFiles(run: seq<State>, j: nat)
    requires IsRun(run) && |run[0].workers| <= 1
    requires j in run[|run| - 1].jobs && run[|run| - 1].jobs[j].status == Completed
    ensures run[|run| - 1].jobs[j].file in run[|run| - 1].files
  {
    hide Step;
    forall i | 0 <= i < |run|
      ensures Undisturbed(run[i])
    {
      var part := run[..i + 1];
      assert IsRun(part);
      RunKeepsWorkers(part);
      assert part[|part| - 1] == run[i];
      AloneUndisturbed(run[i]);
    }
    UndisturbedFilesStay(run, j);
  }

  lemma AloneUndisturbed(s: State)
    requires |s.workers| <= 1
    ensures Undisturbed(s)
  {
    forall w, v | w in s.workers && v in s.workers
      ensures w == v
    {
      if w != v {
        AtMostAll({w, v}, s.workers.Keys);
      }
    }
  }

  lemma AtMostAll(some: set<nat>, all: set<nat>)
    requires some <= all
    ensures |some| <= |all|
  {
    assert all == some + (all - some);
  }

  // Without managed names, nothing is deleted.

  ghost predicate NothingDeleted(s: State) {
    s.managed == {} && CompletedOnDisk(s) && forall w :: w in s.workers ==> WrittenOnDisk(s, w)
  }

  lemma StepDeletesNothing(s: State, t: State)
    requires NothingDeleted(s) && WorkersHaveJobs(s) && Step(s, t)
    ensures NothingDeleted(t)
  {
    hide NothingDeleted, WorkersHaveJobs;
    if exists w: nat :: Completes(s, t, w) {
      var w: nat :| Completes(s, t, w);
      hide *;
      CompletesDeletesNothing(s, t, w);
    } else if exists w: nat :: Prunes(s, t, w) {
      var w: nat :| Prunes(s, t, w);
      hide *;
      PrunesDeletesNothing(s, t, w);
    } else if exists w: nat :: Writes(s, t, w) {
      var w: nat :| Writes(s, t, w);
      hide *;
      WritesDeletesNothing(s, t, w);
    } else {
      assert t.managed == s.managed;
      hide Step, Completes, Prunes, Writes, Quiet;
      OtherStepsQuiet(s, t);
      OthersDeleteNothing(s, t);
    }
  }

  lemma OthersDeleteNothing(s: State, t: State)
    requires NothingDeleted(s) && WorkersHaveJobs(s) && Quiet(s, t) && t.managed == s.managed
    ensures NothingDeleted(t)
  {
    hide Quiet, WorkersHaveJobs;
    QuietDeletesNothing(s, t);
  }

  lemma CompletesDeletesNothing(s: State, t: State, w: nat)
    requires NothingDeleted(s) && WorkersHaveJobs(s) && Completes(s, t, w)
    ensures NothingDeleted(t)
  {
    assert WrittenOnDisk(s, w);
    forall v | v in t.workers
      ensures WrittenOnDisk(t, v)
    {
      assert WrittenOnDisk(s, v);
    }
  }

  lemma PrunesDeletesNothing(s: State, t: State, w: nat)
    requires NothingDeleted(s) && WorkersHaveJobs(s) && Prunes(s, t, w)
    ensures NothingDeleted(t)
  {
    forall v | v in t.workers
      ensures WrittenOnDisk(t, v)
    {
      assert WrittenOnDisk(s, v);
    }
  }

  lemma WritesDeletesNothing(s: State, t: State, w: nat)
    requires NothingDeleted(s) && WorkersHaveJobs(s) && Writes(s, t, w)
    ensures NothingDeleted(t)
  {
    forall v | v in t.workers
      ensures WrittenOnDisk(t, v)
    {
      assert WrittenOnDisk(s, v);
    }
  }

  lemma QuietDeletesNothing(s: State, t: State)
    requires CompletedOnDisk(s) && (forall w :: w in s.workers ==> WrittenOnDisk(s, w))
    requires WorkersHaveJobs(s) && Quiet(s, t)
    ensures CompletedOnDisk(t) && forall w :: w in t.workers ==> WrittenOnDisk(t, w)
  {
    forall w | w in t.workers
      ensures WrittenOnDisk(t, w)
    {
      assert WrittenOnDisk(s, w) && QuietWorker(s, t, w);
    }
  }

  lemma {:induction false} RunDeletesNothing(run: seq<State>)
    requires IsRun(run) && run[0].managed == {}
    ensures NothingDeleted(run[|run| - 1])
    decreases |run|
  {
    hide Step;
    if |run| == 1 {
    } else {
      var before := run[..|run| - 1];
      RunDeletesNothing(before);
      RunKeepsWorkers(before);
      StepDeletesNothing(run[|run| - 2], run[|run| - 1]);
    }
  }

  /** No run of these workers, with these managed names, loses the file of a completed job. */
  ghost predicate NeverLosesFiles(workers: set<nat>, managed: set<string>) {
    forall run: seq<State> :: IsRun(run) && run[0].workers.Keys == workers && run[0].managed == managed
      ==> CompletedOnDisk(run[|run| - 1])
  }

  /** Files of completed jobs stay if and only if there is at most one worker, or no file is managed. */
  lemma FilesStayExactly(workers: set<nat>, managed: set<string>)
    ensures NeverLosesFiles(workers, managed) <==> |workers| <= 1 || managed == {}
  {
    hide Step;
    if |workers| <= 1 || managed == {} {
      forall run: seq<State> | IsRun(run) && run[0].workers.Keys == workers && run[0].managed == managed
        ensures CompletedOnDisk(run[|run| - 1])
      {
        if |workers| <= 1 {
          assert |run[0].workers| == |run[0].workers.Keys|;
          var last := run[|run| - 1];
          forall j | j in last.jobs && last.jobs[j].status == Completed
            ensures last.jobs[j].file in last.files
          {
            OneWorkerKeepsFiles(run, j);
          }
        } else {
          RunDeletesNothing(run);
        }
      }
    } else {
      var file :| file in managed;
      var a, b := TwoOf(workers);
      var run := TwoWorkersLoseFile(workers, managed, a, b, file);
      assert !CompletedOnDisk(run[|run| - 1]);
    }
  }

  lemma TwoOf(s: set<nat>) returns (a: nat, b: nat)
    requires |s| > 1
    ensures a in s && b in s && a != b
  {
    a :| a in s;
    assert |s - {a}| > 0;
    b :| b in s - {a};
  }

  /** A second worker can lose a file: it is written after the keys were read, and deleted after its job completed. */
  lemma TwoWorkersLoseFile(workers: set<nat>, managed: set<string>, a: nat, b: nat, file: string)
      returns (run: seq<State>)
    requires a in workers && b in workers && a != b && file in managed
    ensures IsRun(run) && run[0].workers.Keys == workers && run[0].managed == managed
    ensures var s := run[|run| - 1];
      0 in s.jobs && s.jobs[0].status == Completed && s.jobs[0].file == file && s.jobs[0].objectKey == Some(file)
          && file !in s.files
  {
    hide Step;
    var job := Job(file, Pending, 0, 0, None, 0, 0);
    var running := job.(status := Running, attempts := 1);
    var completed := running.(status := Completed, objectKey := Some(file));
    var s0 := State(map[], map w | w in workers :: Idle, {}, managed);
    var s1 := WithJob(s0, 0, job);
    var s2 := WithWorker(s1, a, Pruning(None, None));
    var s3 := WithWorker(s2, a, Pruning(None, Some({})));
    var s4 := WithWorker(WithJob(s3, 0, running), b, Holding(0));
    var s5 := WithWorker(s4, b, Written(0)).(files := s4.files + {file});
    var s6 := WithWorker(s5, a, Pruning(Some([file]), Some({})));
    var s7 := WithWorker(WithJob(s6, 0, completed), b, Finishing(0));
    var s8 := WithWorker(s7, a, Pruning(Some([]), Some({}))).(files := s7.files - {file});
    assert Step(s0, s1) by { assert Creates(s0, s1, 0, file); IsStep(s0, s1); }
    assert Step(s1, s2) by { assert StartsPruning(s1, s2, a); IsStep(s1, s2); }
    assert Step(s2, s3) by {
      assert Referenced(s2.jobs) == {};
      assert ListsReferences(s2, s3, a);
      IsStep(s2, s3);
    }
    assert Step(s3, s4) by { assert Claims(s3, s4, b, 0, 0); IsStep(s3, s4); }
    assert Step(s4, s5) by { assert Writes(s4, s5, b); IsStep(s4, s5); }
    assert Step(s5, s6) by { assert ListsFiles(s5, s6, a, [file]); IsStep(s5, s6); }
    assert Step(s6, s7) by { assert Completes(s6, s7, b); IsStep(s6, s7); }
    assert Step(s7, s8) by {
      assert [file][1..] == [];
      assert Prunes(s7, s8, a);
      IsStep(s7, s8);
    }
    run := [s0, s1, s2, s3, s4, s5, s6, s7, s8];
  }

  lemma IsStep(s: State, t: State)
    ensures (exists j: nat, file :: Creates(s, t, j, file)) || (exists w: nat, j: nat, now :: Claims(s, t, w, j, now))
            || (exists w: nat :: Writes(s, t, w)) || (exists w: nat :: Completes(s, t, w))
            || (exists w: nat :: StartsPruning(s, t, w)) || (exists w: nat, names :: ListsFiles(s, t, w, names))
            || (exists w: nat :: ListsReferences(s, t, w)) || (exists w: nat :: Prunes(s, t, w))
      ==> Step(s, t)
  {
  }
}

/** The directory of export files, and the pruning of those that no job refers to. */
module ExportFiles {
  import Text

  predicate HexOrDash(c: char) {
    var l := Text.LowerChar(c);
    '0' <= l <= '9' || 'a' <= l <= 'f' || l == '-'
  }

  predicate HasForm(name: string, extension: string) {
    && |name| > |extension|
    && Text.Lower(name[|name| - |extension|..]) == extension
    && forall i :: 0 <= i < |name| - |extension| ==> HexOrDash(name[i])
  }

  /** A file name that the exporter itself gives: the id of a job and the extension of its format. */
  predicate IsManaged(name: string) {
    HasForm(name, ".csv") || HasForm(name, ".xlsx")
  }

  /** What comes after the last slash. */
  function BaseName(path: string): string {
    if path == "" then ""
    else if path[|path| - 1] == '/' then ""
    else BaseName(path[..|path| - 1]) + [path[|path| - 1]]
  }

  predicate Orphaned(name: string, referenced: set<string>) {
    IsManaged(name) && name !in referenced
  }

  function BaseNames(keys: seq<string>): set<string> {
    set k | k in keys :: BaseName(k)
  }

  function ManagedIn(names: seq<string>): seq<string> {
    if names == [] then [] else (if IsManaged(names[0]) then [names[0]] else []) + ManagedIn(names[1..])
  }

  function OrphanedIn(names: seq<string>, referenced: set<string>): seq<string> {
    if names == [] then []
    else (if Orphaned(names[0], referenced) then [names[0]] else []) + OrphanedIn(names[1..], referenced)
  }

  lemma {:induction false} CountsNext(names: seq<string>, name: string, referenced: set<string>)
    ensures |ManagedIn(names + [name])| == |ManagedIn(names)| + if IsManaged(name) then 1 else 0
    ensures |OrphanedIn(names + [name], referenced)|
         == |OrphanedIn(names, referenced)| + if Orphaned(name, referenced) then 1 else 0
  {
    hide IsManaged;
    if names == [] {
      assert names + [name] == [name];
    } else {
      assert (names + [name])[1..] == names[1..] + [name];
      CountsNext(names[1..], name, referenced);
    }
  }

  lemma {:induction false} BaseNamePlain(name: string)
    requires '/' !in name
    ensures BaseName(name) == name
  {
    if name == "" {
    } else {
      BaseNamePlain(name[..|name| - 1]);
      assert name == name[..|name| - 1] + [name[|name| - 1]];
    }
  }

  lemma ExtensionPlain(format: string)
    requires format == "csv" || format == "xlsx"
    ensures Text.Lower("." + format) == "." + format && '/' !in "." + format
  {
    var extension := "." + format;
    assert extension == if format == "csv" then ".csv" else ".xlsx";
    assert forall i :: 0 <= i < |extension| ==> Text.LowerChar(extension[i]) == extension[i] != '/';
  }

  /** The key of a job's file is a managed name and its own base name, so it protects exactly that file. */
  lemma ObjectKeyProtects(id: string, format: string)
    requires id != "" && forall i :: 0 <= i < |id| ==> HexOrDash(id[i])
    requires format == "csv" || format == "xlsx"
    ensures var name := id + ("." + format);
      IsManaged(name) && BaseName(name) == name
  {
    hide Text.Lower, HexOrDash;
    var extension := "." + format;
    var name := id + extension;
    ExtensionPlain(format);
    assert extension == ".csv" || extension == ".xlsx";
    assert name[|name| - |extension|..] == extension;
    assert HasForm(name, extension);
    NoSlash(id);
    assert '/' !in name;
    BaseNamePlain(name);
  }

  lemma NoSlash(id: string)
    requires forall i :: 0 <= i < |id| ==> HexOrDash(id[i])
    ensures '/' !in id
  {
  }

  class ExportsDirectory {
    var files: set<string>

    constructor (files: set<string>)
      ensures this.files == files
    {
      this.files := files;
    }

    /** Deletes the managed files of a listing that no key refers to, and counts the managed ones. */
    method PruneOrphanedExportFiles(fileNames: seq<string>, referencedObjectKeys: seq<string>)
      returns (removedCount: nat, keptCount: nat)
      modifies this
      ensures var referenced := BaseNames(referencedObjectKeys);
        && (forall f :: f in files <==> f in old(files) && !(f in fileNames && Orphaned(f, referenced)))
        && removedCount == |OrphanedIn(fileNames, referenced)|
        && removedCount + keptCount == |ManagedIn(fileNames)|
    {
      hide IsManaged, BaseName;
      var referenced := BaseNames(referencedObjectKeys);
      removedCount, keptCount := 0, 0;
      for i := 0 to |fileNames|
        invariant forall f :: f in files <==> f in old(files) && !(f in fileNames[..i] && Orphaned(f, referenced))
        invariant removedCount == |OrphanedIn(fileNames[..i], referenced)|
        invariant removedCount + keptCount == |ManagedIn(fileNames[..i])|
      {
        var fileName := fileNames[i];
        assert fileNames[..i + 1] == fileNames[..i] + [fileName];
        CountsNext(fileNames[..i], fileName, referenced);
        if !IsManaged(fileName) {
          continue;
        }
        if fileName in referenced {
          keptCount := keptCount + 1;
          continue;
        }
        files := files - {fileName};
        removedCount := removedCount + 1;
      }
      assert fileNames[..|fileNames|] == fileNames;
    }
  }
}
