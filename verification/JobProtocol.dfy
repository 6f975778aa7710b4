/** The job queue, the GPU lock and the shared files as a machine of atomic steps: uploads, any number of
    workers, the hourly cleaner, failures and the passing of time, interleaved in every possible way.
    Times are in seconds. */
module JobProtocol {
  import opened Words

  datatype Engine = WhisperX | GigaAM
  datatype Status = Pending | Processing | Completed | Filtered | Failed
  datatype Job = Job(file: nat, engine: Engine, createdAt: int, status: Status) {
    predicate Active() { status.Pending? || status.Processing? }
  }

  /** How far process_job has come. The lock is held in Unloading and in Inferring. */
  datatype Stage = Claimed | Waiting | Unloading | Inferring | Finishing(ok: bool) | Saved | Recovering | Removing
  datatype Worker = Idle | Busy(id: nat, file: nat, engine: Engine, stage: Stage) {
    predicate In(stage: Stage) { Busy? && this.stage == stage }
    predicate OnGpu() { In(Unloading) || In(Inferring) }
    /** Its job has no outcome in the table yet. */
    predicate Working() { Busy? && !stage.Saved? && !stage.Recovering? && !stage.Removing? }
  }

  /** adrift: the engines still at work on a request that the gateway has given up. The last two are history: an
      unload failed; a request was given up with its engine at work. */
  datatype Gpu = Gpu(lock: Option<nat>, current: Option<Engine>, loaded: set<Engine>, adrift: set<Engine>,
    unloadFailed: bool, gaveUp: bool)

  /** The cleaner, between being told that a file is not in use and removing it. */
  datatype Cleaner = Resting | Doomed(file: nat)

  datatype Claim = Claim(id: nat, createdAt: int)

  datatype State = State(
    rows: map<nat, Job>,          // the table, by job number
    made: seq<nat>,               // the file of each row ever inserted, by job number
    files: map<nat, int>,         // the shared directory: modification time of each file
    uploads: set<nat>,            // files stored whose row is not inserted yet
    nextFile: nat,
    workers: seq<Worker>,
    gpu: Gpu,
    cleaner: Cleaner,
    now: int,
    claims: seq<Claim>,           // history: the jobs taken, in order
    owner: map<nat, nat>,         // history: who took each
    stored: map<nat, int>,        // history: when each file was stored
    missed: set<nat>,             // history: files that the cleaner had chosen or removed before their row came
    unlogged: set<nat>,           // history: jobs whose log entry failed once their outcome was saved
    stuck: set<nat>)              // history: jobs whose failure could not be recorded

  const RETENTION := 86400

  /** How a request to an engine ends for the gateway; an engine may go on working on one given up, as after a
      time-out. */
  datatype Answer = Answered | Refused | GivenUp

  datatype Act =
    | Take(id: nat)
    | BadPath(saved: bool)
    | GoodPath
    | Acquire
    | Unload(ok: bool)
    | Load
    | Infer(answer: Answer)
    | Save(ok: bool, filtered: bool)
    | Log(ok: bool)
    | Recover(saved: bool)
    | Remove(ok: bool)

  datatype Step =
    | Tick(seconds: nat)
    | Upload
    | Insert(file: nat, engine: Engine)
    | InsertFails(file: nat)
    | Work(w: nat, act: Act)
    | LateLoad(engine: Engine)
    | Settle(engine: Engine)
    | Expire
    | Check(file: nat, since: int)
    | Sweep(ok: bool)

  // ----- the SQL statements

  function SetStatus(rows: map<nat, Job>, id: nat, status: Status): map<nat, Job> {
    if id in rows then rows[id := rows[id].(status := status)] else rows
  }

  /** DELETE of the rows older than a day, whatever their status. */
  function Unexpired(rows: map<nat, Job>, now: int): map<nat, Job> {
    map id | id in rows && rows[id].createdAt >= now - RETENTION :: rows[id]
  }

  predicate IsActive(rows: map<nat, Job>, file: nat) {
    exists id: nat :: id in rows && rows[id].file == file && rows[id].Active()
  }

  /** A row that the claiming UPDATE may take: no pending one is older. */
  ghost predicate OldestPending(rows: map<nat, Job>, id: nat) {
    && id in rows && rows[id].status == Pending
    && forall other: nat :: other in rows && rows[other].status == Pending ==>
        rows[id].createdAt <= rows[other].createdAt
  }

  // ----- one worker's steps

  ghost predicate Enabled(s: State, w: nat, act: Act) {
    && w < |s.workers|
    && var k := s.workers[w];
      match act
      case Take(id) => k.Idle? && OldestPending(s.rows, id)
      case BadPath(_) => k.In(Claimed)
      case GoodPath => k.In(Claimed)
      case Acquire => k.In(Waiting) && s.gpu.lock.None?
      case Unload(_) => k.In(Unloading)
      case Load => k.In(Inferring)
      case Infer(_) => k.In(Inferring)
      case Save(_, _) => k.Busy? && k.stage.Finishing?
      case Log(_) => k.In(Saved)
      case Recover(_) => k.In(Recovering)
      case Remove(_) => k.In(Removing)
  }

  predicate NeedsUnload(current: Option<Engine>, engine: Engine) { current.Some? && current.value != engine }

  function NextStage(k: Worker, current: Option<Engine>, act: Act): Worker
    requires k.Busy?
  {
    match act
    case Take(_) => k
    case BadPath(_) => Idle
    case GoodPath => k.(stage := Waiting)
    case Acquire => k.(stage := if NeedsUnload(current, k.engine) then Unloading else Inferring)
    case Unload(_) => k.(stage := Inferring)
    case Load => k
    case Infer(answer) => k.(stage := Finishing(answer == Answered))
    case Save(ok, _) => k.(stage := if ok then Saved else Recovering)
    case Log(ok) => k.(stage := if ok then Removing else Recovering)
    case Recover(_) => k.(stage := Removing)
    case Remove(_) => Idle
  }

  /** The global current_gpu_engine is set when no unload is needed or one was tried, even if it failed. */
  function NextGpu(g: Gpu, w: nat, engine: Engine, act: Act): Gpu {
    match act
    case Acquire => g.(lock := Some(w), current := if NeedsUnload(g.current, engine) then g.current else Some(engine))
    case Unload(ok) =>
      g.(current := Some(engine), unloadFailed := g.unloadFailed || !ok,
         loaded := if ok && g.current.Some? then g.loaded - {g.current.value} else g.loaded)
    case Load => g.(loaded := g.loaded + {engine})
    case Infer(answer) =>
      if answer == GivenUp then g.(lock := None, adrift := g.adrift + {engine}, gaveUp := true) else g.(lock := None)
    case _ => g
  }

  /** What the step writes: the outcome, over whatever stands in the row, if the row is still there. */
  function NextRows(rows: map<nat, Job>, k: Worker, act: Act): map<nat, Job>
    requires k.Busy?
  {
    match act
    case BadPath(saved) => if saved then SetStatus(rows, k.id, Failed) else rows
    case Save(ok, filtered) =>
      if !ok then rows
      else
        SetStatus(rows, k.id, if k.stage == Finishing(false) then Failed else if filtered then Filtered else Completed)
    case Recover(saved) => if saved then SetStatus(rows, k.id, Failed) else rows
    case _ => rows
  }

  function Worked(s: State, w: nat, act: Act): State
    requires w < |s.workers| && s.workers[w].Busy?
  {
    var k := s.workers[w];
    s.(workers := s.workers[w := NextStage(k, s.gpu.current, act)],
       gpu := NextGpu(s.gpu, w, k.engine, act),
       rows := NextRows(s.rows, k, act),
       files := if act == Remove(true) then s.files - {k.file} else s.files,
       unlogged := if act == Log(false) then s.unlogged + {k.id} else s.unlogged,
       stuck := if act == BadPath(false) || act == Recover(false) then s.stuck + {k.id} else s.stuck)
  }

  function Taken(s: State, w: nat, id: nat): State
    requires w < |s.workers| && id in s.rows
  {
    var job := s.rows[id];
    s.(rows := SetStatus(s.rows, id, Processing), workers := s.workers[w := Busy(id, job.file, job.engine, Claimed)],
       claims := s.claims + [Claim(id, job.createdAt)], owner := s.owner[id := w])
  }

  // ----- the machine; a step that is not enabled changes nothing

  function Inserted(s: State, file: nat, engine: Engine): State {
    s.(rows := s.rows[|s.made| := Job(file, engine, s.now, Pending)], made := s.made + [file],
       uploads := s.uploads - {file},
       missed := if file !in s.files || s.cleaner == Doomed(file) then s.missed + {file} else s.missed)
  }

  ghost function Apply(s: State, step: Step): State {
    match step
    case Tick(seconds) => s.(now := s.now + seconds)
    case Upload =>
      s.(files := s.files[s.nextFile := s.now], uploads := s.uploads + {s.nextFile}, nextFile := s.nextFile + 1,
         stored := s.stored[s.nextFile := s.now])
    case Insert(file, engine) => if file in s.uploads then Inserted(s, file, engine) else s
    case InsertFails(file) =>
      if file in s.uploads then s.(uploads := s.uploads - {file}, files := s.files - {file}) else s
    case Work(w, act) =>
      if !Enabled(s, w, act) then s
      else if act.Take? then Taken(s, w, act.id)
      else Worked(s, w, act)
    case LateLoad(engine) =>
      if engine in s.gpu.adrift then s.(gpu := s.gpu.(loaded := s.gpu.loaded + {engine})) else s
    case Settle(engine) => s.(gpu := s.gpu.(adrift := s.gpu.adrift - {engine}))
    case Expire => s.(rows := Unexpired(s.rows, s.now))
    case Check(file, since) =>
      if s.cleaner.Resting? && file in s.files && since <= s.now && since - s.files[file] > RETENTION
        && !IsActive(s.rows, file)
      then s.(cleaner := Doomed(file)) else s
    case Sweep(ok) =>
      if s.cleaner.Doomed? then
        s.(files := if ok then s.files - {s.cleaner.file} else s.files, cleaner := Resting)
      else s
  }

  ghost function Run(s: State, steps: seq<Step>): State {
    if steps == [] then s else Apply(Run(s, steps[..|steps| - 1]), steps[|steps| - 1])
  }

  /** A gateway that starts with n idle workers and, maybe, engines that are loaded already. */
  function Start(n: nat, now: int, loaded: set<Engine>): State {
    State(map[], [], map[], {}, 0, seq(n, _ => Idle), Gpu(None, None, loaded, {}, false, false), Resting, now,
      [], map[], map[], {}, {}, {})
  }

  // ----- the GPU

  ghost predicate GpuHeld(s: State) {
    && (forall w: nat :: w < |s.workers| ==> (s.workers[w].OnGpu() <==> s.gpu.lock == Some(w)))
    && (forall w: nat :: w < |s.workers| && s.workers[w].In(Inferring) ==> s.gpu.current == Some(s.workers[w].engine))
  }

  ghost predicate OnlyCurrentLoaded(g: Gpu) {
    !g.unloadFailed && !g.gaveUp ==> forall e :: e in g.loaded ==> g.current == Some(e)
  }

  /** No engine is at work unasked unless a request was given up. */
  ghost predicate NoneAdrift(g: Gpu) { !g.gaveUp ==> g.adrift == {} }

  lemma TakeGpu(s: State, w: nat, id: nat)
    requires GpuHeld(s) && NoneAdrift(s.gpu)
    requires Enabled(s, w, Take(id))
    ensures GpuHeld(Taken(s, w, id)) && NoneAdrift(Taken(s, w, id).gpu)
  {
  }

  lemma WorkGpu(s: State, w: nat, act: Act)
    requires GpuHeld(s) && NoneAdrift(s.gpu)
    requires !act.Take? && Enabled(s, w, act)
    ensures GpuHeld(Worked(s, w, act)) && NoneAdrift(Worked(s, w, act).gpu)
  {
  }

  lemma StepGpu(s: State, step: Step)
    requires GpuHeld(s) && NoneAdrift(s.gpu)
    ensures GpuHeld(Apply(s, step)) && NoneAdrift(Apply(s, step).gpu)
  {
    if step.Work? {
      hide GpuHeld, NoneAdrift;
      if Enabled(s, step.w, step.act) {
        if step.act.Take? { TakeGpu(s, step.w, step.act.id); } else { WorkGpu(s, step.w, step.act); }
      }
    }
  }

  lemma StepLoaded(s: State, step: Step)
    requires GpuHeld(s) && NoneAdrift(s.gpu) && OnlyCurrentLoaded(s.gpu)
    ensures OnlyCurrentLoaded(Apply(s, step).gpu)
  {
  }

  // ----- the numbers of jobs and files

  /** Rows, workers and past claims speak of jobs inserted before, each with its own file. */
  ghost predicate RowsNumbered(s: State) {
    forall id: nat :: id in s.rows ==> id < |s.made| && s.rows[id].file == s.made[id] && s.rows[id].createdAt <= s.now
  }

  ghost predicate WorkersNumbered(s: State) {
    forall w: nat :: w < |s.workers| && s.workers[w].Busy? ==>
      s.workers[w].id < |s.made| && s.workers[w].file == s.made[s.workers[w].id]
  }

  ghost predicate ClaimsNumbered(s: State) {
    forall c :: c in s.claims ==> c.id < |s.made| && c.createdAt <= s.now
  }

  ghost predicate FilesNumbered(s: State) {
    && Distinct(s.made)
    && (forall f :: f in s.made ==> f < s.nextFile && f !in s.uploads)
    && (forall f: nat :: f in s.uploads || f in s.files ==> f < s.nextFile)
  }

  ghost predicate Numbered(s: State) {
    RowsNumbered(s) && WorkersNumbered(s) && ClaimsNumbered(s) && FilesNumbered(s)
  }

  lemma TakeRowsNumbered(s: State, w: nat, id: nat)
    requires RowsNumbered(s)
    requires Enabled(s, w, Take(id))
    ensures RowsNumbered(Taken(s, w, id))
  {
  }

  lemma WorkRowsNumbered(s: State, w: nat, act: Act)
    requires RowsNumbered(s)
    requires !act.Take? && Enabled(s, w, act)
    ensures RowsNumbered(Worked(s, w, act))
  {
  }

  lemma StepRowsNumbered(s: State, step: Step)
    requires RowsNumbered(s)
    ensures RowsNumbered(Apply(s, step))
  {
    if step.Work? {
      hide RowsNumbered;
      if Enabled(s, step.w, step.act) {
        if step.act.Take? { TakeRowsNumbered(s, step.w, step.act.id); } else { WorkRowsNumbered(s, step.w, step.act); }
      }
    }
  }

  lemma StepWorkersNumbered(s: State, step: Step)
    requires RowsNumbered(s) && WorkersNumbered(s)
    ensures WorkersNumbered(Apply(s, step))
  {
  }

  lemma StepClaimsNumbered(s: State, step: Step)
    requires RowsNumbered(s) && ClaimsNumbered(s)
    ensures ClaimsNumbered(Apply(s, step))
  {
  }

  lemma StepFilesNumbered(s: State, step: Step)
    requires FilesNumbered(s)
    ensures FilesNumbered(Apply(s, step))
  {
  }

  // ----- the queue

  /** Jobs are claimed in the order of their creation, none of them twice. */
  ghost predicate InTurn(claims: seq<Claim>) {
    forall i, j :: 0 <= i < j < |claims| ==> claims[i].id != claims[j].id && claims[i].createdAt <= claims[j].createdAt
  }

  /** Pending jobs were never claimed and are no older than those that were. */
  ghost predicate PendingLast(s: State) {
    forall c, id: nat :: c in s.claims && id in s.rows && s.rows[id].status == Pending ==>
      c.id != id && c.createdAt <= s.rows[id].createdAt
  }

  lemma TakePendingLast(s: State, w: nat, id: nat)
    requires Numbered(s) && PendingLast(s)
    requires Enabled(s, w, Take(id))
    ensures PendingLast(Taken(s, w, id))
  {
  }

  lemma WorkPendingLast(s: State, w: nat, act: Act)
    requires Numbered(s) && PendingLast(s)
    requires !act.Take? && Enabled(s, w, act)
    ensures PendingLast(Worked(s, w, act))
  {
  }

  lemma StepPendingLast(s: State, step: Step)
    requires Numbered(s) && PendingLast(s)
    ensures PendingLast(Apply(s, step))
  {
    if step.Work? {
      hide PendingLast;
      if Enabled(s, step.w, step.act) {
        if step.act.Take? { TakePendingLast(s, step.w, step.act.id); } else { WorkPendingLast(s, step.w, step.act); }
      }
    }
  }

  lemma StepInTurn(s: State, step: Step)
    requires InTurn(s.claims) && PendingLast(s)
    ensures InTurn(Apply(s, step).claims)
  {
  }

  // ----- rows and their workers

  /** The row of a worker's job, if it has not expired, is processing until the outcome is saved; it is
      never pending again. No two workers have the same job. */
  ghost predicate RowsFollow(s: State) {
    && (forall w: nat :: w < |s.workers| && s.workers[w].Busy? && s.workers[w].id in s.rows ==>
        var status := s.rows[s.workers[w].id].status;
        status != Pending && (s.workers[w].Working() ==> status == Processing))
    && (forall w: nat, v: nat :: w < v < |s.workers| && s.workers[w].Busy? && s.workers[v].Busy? ==>
        s.workers[w].id != s.workers[v].id)
  }

  lemma TakeRowsFollow(s: State, w: nat, id: nat)
    requires Numbered(s) && RowsFollow(s)
    requires Enabled(s, w, Take(id))
    ensures RowsFollow(Taken(s, w, id))
  {
  }

  lemma WorkRowsFollow(s: State, w: nat, act: Act)
    requires Numbered(s) && RowsFollow(s)
    requires !act.Take? && Enabled(s, w, act)
    ensures RowsFollow(Worked(s, w, act))
  {
  }

  lemma StepRowsFollow(s: State, step: Step)
    requires Numbered(s) && RowsFollow(s)
    ensures RowsFollow(Apply(s, step))
  {
    if step.Work? {
      hide RowsFollow;
      if Enabled(s, step.w, step.act) {
        if step.act.Take? { TakeRowsFollow(s, step.w, step.act.id); } else { WorkRowsFollow(s, step.w, step.act); }
      }
    }
  }

  /** A worker that records a failure finds its row processing, unless the job's log entry has failed. */
  ghost predicate RecoversUnsaved(s: State) {
    forall w: nat :: w < |s.workers| && s.workers[w].In(Recovering) && s.workers[w].id in s.rows ==>
      s.workers[w].id in s.unlogged || s.rows[s.workers[w].id].status == Processing
  }

  lemma TakeRecovers(s: State, w: nat, id: nat)
    requires RowsFollow(s) && RecoversUnsaved(s) && Enabled(s, w, Take(id))
    ensures RecoversUnsaved(Taken(s, w, id))
  {
  }

  lemma WorkRecovers(s: State, w: nat, act: Act)
    requires RowsFollow(s) && RecoversUnsaved(s) && !act.Take? && Enabled(s, w, act)
    ensures RecoversUnsaved(Worked(s, w, act))
  {
  }

  lemma StepRecoversUnsaved(s: State, step: Step)
    requires RowsNumbered(s) && WorkersNumbered(s) && RowsFollow(s) && RecoversUnsaved(s)
    ensures RecoversUnsaved(Apply(s, step))
  {
    if step.Work? {
      hide RecoversUnsaved;
      if Enabled(s, step.w, step.act) {
        if step.act.Take? { TakeRecovers(s, step.w, step.act.id); } else { WorkRecovers(s, step.w, step.act); }
      }
    }
  }

  /** Unless its failure could not be recorded, a processing row has a worker that will still write to it. */
  ghost predicate NoOrphans(s: State) {
    forall id: nat :: id in s.rows && s.rows[id].status == Processing && id !in s.stuck ==> Owned(s, id)
  }

  ghost predicate Owned(s: State, id: nat) {
    && id in s.owner && s.owner[id] < |s.workers|
    && var k := s.workers[s.owner[id]];
      k.Busy? && k.id == id && (k.Working() || k.In(Recovering))
  }

  lemma TakeNoOrphans(s: State, w: nat, id: nat)
    requires NoOrphans(s)
    requires Enabled(s, w, Take(id))
    ensures NoOrphans(Taken(s, w, id))
  {
  }

  lemma WorkNoOrphans(s: State, w: nat, act: Act)
    requires NoOrphans(s)
    requires !act.Take? && Enabled(s, w, act)
    ensures NoOrphans(Worked(s, w, act))
  {
  }

  lemma StepNoOrphans(s: State, step: Step)
    requires NoOrphans(s)
    ensures NoOrphans(Apply(s, step))
  {
    if step.Work? {
      hide NoOrphans;
      if Enabled(s, step.w, step.act) {
        if step.act.Take? { TakeNoOrphans(s, step.w, step.act.id); } else { WorkNoOrphans(s, step.w, step.act); }
      }
    }
  }

  // ----- the files

  /** A file chosen for removal is in use by no row but one that came after the choice. */
  ghost predicate DoomedUnused(s: State) {
    s.cleaner.Doomed? && s.cleaner.file !in s.missed ==>
      s.cleaner.file < s.nextFile && !IsActive(s.rows, s.cleaner.file)
  }

  lemma StepDoomedUnused(s: State, step: Step)
    requires FilesNumbered(s) && DoomedUnused(s)
    ensures DoomedUnused(Apply(s, step))
  {
  }

  /** A file is there until the outcome of its job is, unless its row came too late. */
  ghost predicate InputsThere(s: State) {
    && (forall id: nat :: id in s.rows && s.rows[id].status == Pending && s.rows[id].file !in s.missed ==>
          s.rows[id].file in s.files)
    && (forall w: nat :: w < |s.workers| && s.workers[w].Working() && s.workers[w].id in s.rows ==>
          s.workers[w].file in s.missed + s.files.Keys)
  }

  lemma TakeInputsThere(s: State, w: nat, id: nat)
    requires Numbered(s) && RowsFollow(s) && DoomedUnused(s) && InputsThere(s)
    requires Enabled(s, w, Take(id))
    ensures InputsThere(Taken(s, w, id))
  {
  }

  lemma WorkInputsThere(s: State, w: nat, act: Act)
    requires Numbered(s) && RowsFollow(s) && DoomedUnused(s) && InputsThere(s)
    requires !act.Take? && Enabled(s, w, act)
    ensures InputsThere(Worked(s, w, act))
  {
    if act == Remove(true) {
      hide InputsThere;
      RemoveInputsThere(s, w);
    }
  }

  /** A worker removes the file of its own job, which has its outcome. */
  lemma RemoveInputsThere(s: State, w: nat)
    requires RowsNumbered(s) && WorkersNumbered(s) && FilesNumbered(s) && RowsFollow(s) && InputsThere(s)
    requires Enabled(s, w, Remove(true))
    ensures InputsThere(Worked(s, w, Remove(true)))
  {
  }

  lemma StepInputsThere(s: State, step: Step)
    requires Numbered(s) && RowsFollow(s) && DoomedUnused(s) && InputsThere(s)
    ensures InputsThere(Apply(s, step))
  {
    if step.Work? {
      hide InputsThere;
      if Enabled(s, step.w, step.act) {
        if step.act.Take? { TakeInputsThere(s, step.w, step.act.id); } else { WorkInputsThere(s, step.w, step.act); }
      }
    }
  }

  // ----- the age of files

  ghost predicate Old(s: State, file: nat, at: int) { file in s.stored && at - s.stored[file] > RETENTION }

  ghost predicate StoredFiles(s: State) {
    && (forall f: nat :: f in s.files ==> f in s.stored && s.stored[f] == s.files[f])
    && (forall f: nat :: f in s.stored ==> f < s.nextFile && s.stored[f] <= s.now)
    && (forall f: nat :: f in s.uploads ==> f in s.stored)
    && (forall f: nat :: f in s.made ==> f in s.stored)
  }

  lemma StepStoredFiles(s: State, step: Step)
    requires StoredFiles(s)
    ensures StoredFiles(Apply(s, step))
  {
  }

  /** The cleaner chooses and removes files over a day old only. So a row that comes too late comes more than a day
      after its file. */
  ghost predicate OnlyOldMissed(s: State) {
    && (s.cleaner.Doomed? ==> Old(s, s.cleaner.file, s.now))
    && (forall f: nat :: f in s.uploads && f !in s.files ==> Old(s, f, s.now))
    && (forall id: nat :: id in s.rows && s.rows[id].file in s.missed ==> Old(s, s.rows[id].file, s.rows[id].createdAt))
    && (forall f: nat :: f in s.missed ==> f in s.made)
  }

  lemma TakeOnlyOldMissed(s: State, w: nat, id: nat)
    requires Numbered(s) && StoredFiles(s) && OnlyOldMissed(s)
    requires Enabled(s, w, Take(id))
    ensures OnlyOldMissed(Taken(s, w, id))
  {
  }

  lemma WorkOnlyOldMissed(s: State, w: nat, act: Act)
    requires Numbered(s) && StoredFiles(s) && OnlyOldMissed(s)
    requires !act.Take? && Enabled(s, w, act)
    ensures OnlyOldMissed(Worked(s, w, act))
  {
  }

  lemma StepOnlyOldMissed(s: State, step: Step)
    requires Numbered(s) && StoredFiles(s) && OnlyOldMissed(s)
    ensures OnlyOldMissed(Apply(s, step))
  {
    if step.Work? {
      hide OnlyOldMissed;
      if Enabled(s, step.w, step.act) {
        if step.act.Take? {
          TakeOnlyOldMissed(s, step.w, step.act.id);
        } else {
          WorkOnlyOldMissed(s, step.w, step.act);
        }
      }
    }
  }
}
