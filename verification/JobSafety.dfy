/** What holds of the job queue, the GPU and the shared files in every run. */
module JobSafety {
  import opened Words
  import opened JobProtocol

  ghost predicate Inv(s: State) {
    && GpuHeld(s) && NoneAdrift(s.gpu) && Numbered(s)
    && InTurn(s.claims) && PendingLast(s)
    && RowsFollow(s) && RecoversUnsaved(s) && NoOrphans(s)
    && DoomedUnused(s) && InputsThere(s)
    && StoredFiles(s) && OnlyOldMissed(s)
  }

  lemma StartInv(n: nat, now: int, loaded: set<Engine>)
    ensures Inv(Start(n, now, loaded))
  {
  }

  lemma StepInv(s: State, step: Step)
    requires Inv(s)
    ensures Inv(Apply(s, step))
  {
    hide Apply, GpuHeld, RowsNumbered, WorkersNumbered, ClaimsNumbered, FilesNumbered, InTurn, PendingLast;
    hide NoneAdrift, RowsFollow, RecoversUnsaved, NoOrphans, DoomedUnused, InputsThere, StoredFiles, OnlyOldMissed;
    StepGpu(s, step);
    StepRowsNumbered(s, step);
    StepWorkersNumbered(s, step);
    StepClaimsNumbered(s, step);
    StepFilesNumbered(s, step);
    StepPendingLast(s, step);
    StepInTurn(s, step);
    StepRowsFollow(s, step);
    StepRecoversUnsaved(s, step);
    StepNoOrphans(s, step);
    StepStoredFiles(s, step);
    StepOnlyOldMissed(s, step);
    StepDoomedUnused(s, step);
    StepInputsThere(s, step);
  }

  lemma {:induction false} RunInv(s: State, steps: seq<Step>)
    requires Inv(s)
    ensures Inv(Run(s, steps))
  {
    hide Inv, Apply;
    if steps != [] {
      RunInv(s, steps[..|steps| - 1]);
      StepInv(Run(s, steps[..|steps| - 1]), steps[|steps| - 1]);
    }
  }

  // ----- one inference, one engine

  /** At most one worker unloads an engine or infers, holding the lock; whoever infers is on the current engine. And
      no other engine is at work unless some request was given up while its engine went on. */
  lemma OneInference(n: nat, now: int, loaded: set<Engine>, steps: seq<Step>, w: nat, v: nat)
    requires var s := Run(Start(n, now, loaded), steps);
      w < |s.workers| && v < |s.workers| && s.workers[w].OnGpu() && s.workers[v].OnGpu()
    ensures var s := Run(Start(n, now, loaded), steps);
      && w == v && s.gpu.lock == Some(w)
      && (s.workers[w].In(Inferring) ==> s.gpu.current == Some(s.workers[w].engine))
      && (!s.gpu.gaveUp ==> s.gpu.adrift == {})
  {
    hide Run;
    StartInv(n, now, loaded);
    RunInv(Start(n, now, loaded), steps);
  }

  ghost predicate BothLoaded(g: Gpu) { WhisperX in g.loaded && GigaAM in g.loaded }

  lemma {:induction false} RunLoaded(s: State, steps: seq<Step>)
    requires Inv(s) && OnlyCurrentLoaded(s.gpu)
    ensures OnlyCurrentLoaded(Run(s, steps).gpu)
  {
    hide Apply, OnlyCurrentLoaded;
    if steps != [] {
      RunInv(s, steps[..|steps| - 1]);
      RunLoaded(s, steps[..|steps| - 1]);
      StepLoaded(Run(s, steps[..|steps| - 1]), steps[|steps| - 1]);
    }
  }

  /** While every unload succeeds and no engine goes on with a request given up, no run has both engines in memory,
      refused inferences included, exactly when the gateway starts with no engine loaded: it knows nothing of one
      that is. */
  lemma NeverBothLoaded(n: nat, now: int, loaded: set<Engine>)
    requires n > 0
    ensures loaded == {} <==> forall steps :: SafelyLoaded(Run(Start(n, now, loaded), steps).gpu)
  {
    hide Run;
    if loaded == {} {
      forall steps
        ensures SafelyLoaded(Run(Start(n, now, loaded), steps).gpu)
      {
        StartInv(n, now, loaded);
        RunLoaded(Start(n, now, loaded), steps);
      }
    } else {
      var e :| e in loaded;
      LoadedBefore(n, now, loaded, e);
    }
  }

  ghost predicate SafelyLoaded(g: Gpu) { g.unloadFailed || g.gaveUp || !BothLoaded(g) }

  /** The first job for the other engine loads it without unloading e. */
  lemma LoadedBefore(n: nat, now: int, loaded: set<Engine>, e: Engine)
    requires n > 0 && e in loaded
    ensures exists steps :: !SafelyLoaded(Run(Start(n, now, loaded), steps).gpu)
  {
    var other := if e == WhisperX then GigaAM else WhisperX;
    var s := Start(n, now, loaded);
    var steps := FirstJob(other);
    FirstJobRuns(s, other);
    assert !SafelyLoaded(Run(s, steps).gpu);
  }

  function FirstJob(engine: Engine): seq<Step> {
    [Upload, Insert(0, engine), Work(0, Take(0))] + [Work(0, GoodPath), Work(0, Acquire), Work(0, Load)]
  }

  lemma FirstJobRuns(s: State, engine: Engine)
    requires |s.workers| > 0 && s == Start(|s.workers|, s.now, s.gpu.loaded)
    ensures Run(s, FirstJob(engine)).gpu == Gpu(Some(0), Some(engine), s.gpu.loaded + {engine}, {}, false, false)
  {
    hide Run, Apply;
    var t := NextTaken(s, engine);
    var u := NextInfers(t, t.workers[0]);
    RunThree(s, Upload, Insert(0, engine), Work(0, Take(0)));
    RunMore(s, [Upload, Insert(0, engine), Work(0, Take(0))],
      Work(0, GoodPath), Work(0, Acquire), Work(0, Load));
  }

  /** A job that is inserted next and taken by the first worker. */
  lemma NextTaken(s: State, engine: Engine) returns (t: State)
    requires |s.workers| > 0 && s.workers[0] == Idle
    requires forall id: nat :: id in s.rows ==> s.rows[id].status != Pending
    ensures t == Apply(Apply(Apply(s, Upload), Insert(s.nextFile, engine)), Work(0, Take(|s.made|)))
    ensures |t.workers| > 0 && t.workers[0] == Busy(|s.made|, s.nextFile, engine, Claimed) && t.gpu == s.gpu
    ensures t.rows == s.rows[|s.made| := Job(s.nextFile, engine, s.now, Processing)]
    ensures t.files == s.files[s.nextFile := s.now] && t.made == s.made + [s.nextFile] && t.nextFile == s.nextFile + 1
    ensures t.cleaner == s.cleaner && t.now == s.now
  {
    var s1 := Apply(s, Upload);
    var s2 := Apply(s1, Insert(s.nextFile, engine));
    assert s2 == Inserted(s1, s.nextFile, engine);
    assert Enabled(s2, 0, Take(|s.made|));
    t := Taken(s2, 0, |s.made|);
  }

  /** The first worker comes to infer, with nothing to unload. */
  lemma NextInfers(s: State, k: Worker) returns (t: State)
    requires |s.workers| > 0 && s.workers[0] == k && k.In(Claimed) && s.gpu.lock == None && s.gpu.current == None
    ensures t == Apply(Apply(Apply(s, Work(0, GoodPath)), Work(0, Acquire)), Work(0, Load))
    ensures t == s.(workers := s.workers[0 := k.(stage := Inferring)],
      gpu := s.gpu.(lock := Some(0), current := Some(k.engine), loaded := s.gpu.loaded + {k.engine}))
  {
    hide Apply;
    WorkStep(s, 0, GoodPath);
    var s1 := Worked(s, 0, GoodPath);
    assert s1 == s.(workers := s.workers[0 := k.(stage := Waiting)]);
    WorkStep(s1, 0, Acquire);
    var s2 := Worked(s1, 0, Acquire);
    assert s2 == s.(workers := s.workers[0 := k.(stage := Inferring)],
      gpu := s.gpu.(lock := Some(0), current := Some(k.engine)));
    WorkStep(s2, 0, Load);
    t := Worked(s2, 0, Load);
  }

  lemma WorkStep(s: State, w: nat, act: Act)
    requires !act.Take?
    ensures Apply(s, Work(w, act)) == if Enabled(s, w, act) then Worked(s, w, act) else s
  {
  }

  // ----- runs put together

  lemma NoRun(s: State)
    ensures Run(s, []) == s
  {
  }

  lemma RunNext(s: State, steps: seq<Step>, step: Step)
    ensures Run(s, steps + [step]) == Apply(Run(s, steps), step)
  {
    hide Apply;
    assert (steps + [step])[..|steps|] == steps;
  }

  lemma RunMore(s: State, steps: seq<Step>, a: Step, b: Step, c: Step)
    ensures Run(s, steps + [a, b, c]) == Apply(Apply(Apply(Run(s, steps), a), b), c)
  {
    hide Apply, Run;
    RunNext(s, steps, a);
    RunNext(s, steps + [a], b);
    RunNext(s, steps + [a] + [b], c);
    assert steps + [a, b, c] == steps + [a] + [b] + [c];
  }

  lemma RunThree(s: State, a: Step, b: Step, c: Step)
    ensures Run(s, [a, b, c]) == Apply(Apply(Apply(s, a), b), c)
  {
    hide Apply, Run;
    NoRun(s);
    RunMore(s, [], a, b, c);
    assert [] + [a, b, c] == [a, b, c];
  }

  lemma {:induction false} RunSplit(s: State, a: seq<Step>, b: seq<Step>)
    ensures Run(s, a + b) == Run(Run(s, a), b)
  {
    hide Apply;
    if b == [] {
      assert a + b == a;
    } else {
      assert (a + b)[..|a + b| - 1] == a + b[..|b| - 1];
      RunSplit(s, a, b[..|b| - 1]);
    }
  }

  // ----- the queue

  /** Over a whole run jobs are claimed in the order of their creation, and each at most once. */
  lemma ClaimedInTurn(n: nat, now: int, loaded: set<Engine>, steps: seq<Step>)
    ensures InTurn(Run(Start(n, now, loaded), steps).claims)
  {
    hide Run;
    StartInv(n, now, loaded);
    RunInv(Start(n, now, loaded), steps);
  }

  function Rank(status: Status): nat {
    match status
    case Pending => 0
    case Processing => 1
    case Completed => 2
    case Filtered => 2
    case Failed => 3
  }

  /** Jobs only move on: to processing, to an outcome, perhaps from there to failed. A number is not used again. */
  ghost predicate MovesOn(s: State, t: State) {
    && s.made <= t.made
    && forall id: nat :: id < |s.made| && id in t.rows ==> id in s.rows && JobMovesOn(s.rows[id], t.rows[id])
  }

  predicate JobMovesOn(a: Job, b: Job) {
    b == a.(status := b.status) && (a.status == b.status || Rank(a.status) < Rank(b.status))
  }

  lemma WorkMovesOn(s: State, w: nat, act: Act)
    requires RowsNumbered(s) && RowsFollow(s)
    requires !act.Take? && Enabled(s, w, act)
    ensures MovesOn(s, Worked(s, w, act))
  {
  }

  lemma StepMovesOn(s: State, step: Step)
    requires RowsNumbered(s) && RowsFollow(s)
    ensures MovesOn(s, Apply(s, step))
  {
    if step.Work? && Enabled(s, step.w, step.act) && !step.act.Take? { WorkMovesOn(s, step.w, step.act); }
  }

  lemma {:induction false} RunMovesOn(s: State, steps: seq<Step>)
    requires Inv(s)
    ensures MovesOn(s, Run(s, steps))
  {
    hide Apply, JobMovesOn;
    if steps == [] {
      SameMovesOn(s);
    } else {
      hide RowsFollow, MovesOn;
      var init := steps[..|steps| - 1];
      RunMovesOn(s, init);
      RunInv(s, init);
      StepMovesOn(Run(s, init), steps[|steps| - 1]);
      MovesOnAgain(s, Run(s, init), Run(s, steps));
    }
  }

  lemma SameMovesOn(s: State)
    requires RowsNumbered(s)
    ensures MovesOn(s, s)
  {
  }

  lemma MovesOnAgain(s: State, t: State, u: State)
    requires MovesOn(s, t) && MovesOn(t, u)
    ensures MovesOn(s, u)
  {
  }

  /** At any later point of any run: a claimed job is not pending, and an outcome can change to failed alone. */
  lemma NeverPendingAgain(n: nat, now: int, loaded: set<Engine>, before: seq<Step>, after: seq<Step>, id: nat)
    requires id in Run(Start(n, now, loaded), before).rows && id in Run(Start(n, now, loaded), before + after).rows
    ensures var was := Run(Start(n, now, loaded), before).rows[id];
      var later := Run(Start(n, now, loaded), before + after).rows[id];
      && (was.status != Pending ==> later.status != Pending)
      && (!was.Active() ==> later.status in {was.status, Failed})
      && later == was.(status := later.status)
  {
    hide Apply;
    var s := Start(n, now, loaded);
    StartInv(n, now, loaded);
    RunInv(s, before);
    RunMovesOn(Run(s, before), after);
    RunSplit(s, before, after);
  }

  /** Once no worker has a job in hand, no row is left processing but those whose failure could not be recorded. */
  lemma NothingLeftProcessing(n: nat, now: int, loaded: set<Engine>, steps: seq<Step>)
    requires var s := Run(Start(n, now, loaded), steps); forall w: nat :: w < |s.workers| ==> s.workers[w].Idle?
    ensures var s := Run(Start(n, now, loaded), steps);
      forall id: nat :: id in s.rows && s.rows[id].status == Processing ==> id in s.stuck
  {
    hide Run;
    StartInv(n, now, loaded);
    RunInv(Start(n, now, loaded), steps);
  }

  // ----- the files

  /** The cleaner never removes the file of a pending or processing row, unless it had chosen the file before the row
      came. A worker loses such a file of the job in hand to the cleaner only if the row has expired. */
  lemma CleanerSpares(n: nat, now: int, loaded: set<Engine>, steps: seq<Step>, ok: bool)
    ensures var s := Run(Start(n, now, loaded), steps);
      var t := Apply(s, Sweep(ok));
      && (forall id: nat :: id in s.rows && s.rows[id].Active() && s.rows[id].file !in s.missed ==>
            (s.rows[id].file in s.files ==> s.rows[id].file in t.files))
      && (forall k :: k in s.workers && k.Working() && k.file !in s.missed ==>
            (k.file in s.files && k.file !in t.files ==> k.id !in s.rows))
  {
    hide Run;
    StartInv(n, now, loaded);
    RunInv(Start(n, now, loaded), steps);
  }

  /** And nobody else removes it: the file of a pending row, and of a row whose job is being worked on, is there,
      unless the cleaner had chosen or removed it before the row came. */
  lemma InputIsThere(n: nat, now: int, loaded: set<Engine>, steps: seq<Step>)
    ensures var s := Run(Start(n, now, loaded), steps);
      && (forall id: nat :: id in s.rows && s.rows[id].status == Pending && s.rows[id].file !in s.missed ==>
            s.rows[id].file in s.files)
      && (forall k :: k in s.workers && k.Working() && k.id in s.rows && k.file !in s.missed ==> k.file in s.files)
  {
    hide Run;
    StartInv(n, now, loaded);
    RunInv(Start(n, now, loaded), steps);
  }

  /** A row comes too late in that sense only if it comes more than a day after its file. */
  lemma MissedIsOld(n: nat, now: int, loaded: set<Engine>, steps: seq<Step>, id: nat)
    requires var s := Run(Start(n, now, loaded), steps); id in s.rows && s.rows[id].file in s.missed
    ensures var s := Run(Start(n, now, loaded), steps);
      s.rows[id].file in s.stored && s.rows[id].createdAt - s.stored[s.rows[id].file] > RETENTION
  {
    hide Run;
    StartInv(n, now, loaded);
    RunInv(Start(n, now, loaded), steps);
  }

  // ----- when an outcome is final

  /** An outcome changes only when a worker records a failure over it, after the job's log entry failed. */
  lemma StepOutcome(s: State, step: Step, id: nat)
    requires RowsNumbered(s) && RowsFollow(s) && RecoversUnsaved(s)
    requires id in s.rows && !s.rows[id].Active() && id in Apply(s, step).rows
    ensures Apply(s, step).rows[id] != s.rows[id] ==> id in s.unlogged
  {
    if step.Work? && Enabled(s, step.w, step.act) && !step.act.Take? {
      hide RowsNumbered;
      WorkOutcome(s, step.w, step.act, id);
    }
  }

  lemma WorkOutcome(s: State, w: nat, act: Act, id: nat)
    requires RowsFollow(s) && RecoversUnsaved(s) && !act.Take? && Enabled(s, w, act)
    requires id in s.rows && !s.rows[id].Active()
    ensures Worked(s, w, act).rows[id] != s.rows[id] ==> id in s.unlogged
  {
  }

  lemma StepUnlogged(s: State, step: Step)
    ensures s.unlogged <= Apply(s, step).unlogged
    ensures forall id :: id in Apply(s, step).unlogged ==> id in s.unlogged || LogFails(s, step, id)
  {
  }

  /** This step is the failure of the log entry of this job, whose outcome is saved. */
  ghost predicate LogFails(s: State, step: Step, id: nat) {
    && step.Work? && step.act == Log(false)
    && step.w < |s.workers| && s.workers[step.w].In(Saved) && s.workers[step.w].id == id
  }

  ghost predicate LogFailsAt(s: State, steps: seq<Step>, k: nat, id: nat) {
    k < |steps| && LogFails(Run(s, steps[..k]), steps[k], id)
  }

  lemma {:induction false} RunOutcome(s: State, steps: seq<Step>, id: nat)
    requires Inv(s) && id in s.rows && !s.rows[id].Active() && id in Run(s, steps).rows
    ensures s.unlogged <= Run(s, steps).unlogged
    ensures Run(s, steps).rows[id] != s.rows[id] ==> id in Run(s, steps).unlogged
  {
    hide Apply, Rank;
    if steps != [] {
      var init, last := steps[..|steps| - 1], steps[|steps| - 1];
      var t := Run(s, init);
      RunInv(s, init);
      RunMovesOn(s, init);
      StepMovesOn(t, last);
      hide Inv;
      RunOutcome(s, init, id);
      StepUnlogged(t, last);
      if t.rows[id] == s.rows[id] { InvOutcome(t, last, id); }
    }
  }

  lemma InvOutcome(s: State, step: Step, id: nat)
    requires Inv(s) && id in s.rows && !s.rows[id].Active() && id in Apply(s, step).rows
    ensures Apply(s, step).rows[id] != s.rows[id] ==> id in s.unlogged
  {
    StepOutcome(s, step, id);
  }

  lemma {:induction false} UnloggedBy(s: State, steps: seq<Step>, id: nat)
    ensures id in Run(s, steps).unlogged ==> id in s.unlogged || exists k: nat :: LogFailsAt(s, steps, k, id)
  {
    hide Apply, LogFails;
    if steps != [] {
      var init, last := steps[..|steps| - 1], steps[|steps| - 1];
      UnloggedBy(s, init, id);
      StepUnlogged(Run(s, init), last);
      if id in Run(s, init).unlogged && id !in s.unlogged {
        var k: nat :| LogFailsAt(s, init, k, id);
        assert steps[..k] == init[..k];
        assert LogFailsAt(s, steps, k, id);
      } else if id in Run(s, steps).unlogged && id !in s.unlogged {
        assert LogFailsAt(s, steps, |init|, id);
      }
    }
  }

  /** In every run, an outcome never changes again, as long as the row is there, unless the log entry of that very job
      fails. */
  lemma OutcomeIsFinal(n: nat, now: int, loaded: set<Engine>, before: seq<Step>, after: seq<Step>, id: nat)
    requires id in Run(Start(n, now, loaded), before).rows && id in Run(Start(n, now, loaded), before + after).rows
    requires !Run(Start(n, now, loaded), before).rows[id].Active()
    requires forall k: nat :: !LogFailsAt(Start(n, now, loaded), before + after, k, id)
    ensures Run(Start(n, now, loaded), before + after).rows[id] == Run(Start(n, now, loaded), before).rows[id]
  {
    hide Run, Inv;
    var s := Start(n, now, loaded);
    StartInv(n, now, loaded);
    RunInv(s, before);
    RunSplit(s, before, after);
    RunOutcome(Run(s, before), after, id);
    UnloggedBy(s, before + after, id);
  }
}
