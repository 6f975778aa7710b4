/** What can go wrong with jobs, engines and files, and exactly when. */
module JobFailures {
  import opened Words
  import opened JobProtocol
  import opened JobSafety

  // ----- the first job of a gateway

  /** Its request ends one way or another, and the outcome is saved. */
  lemma NextSaves(s: State, k: Worker, answer: Answer) returns (t: State)
    requires |s.workers| > 0 && s.workers[0] == k && k.In(Inferring)
    ensures t == Apply(Apply(s, Work(0, Infer(answer))), Work(0, Save(true, false)))
    ensures t == s.(workers := s.workers[0 := k.(stage := Saved)], gpu := NextGpu(s.gpu, 0, k.engine, Infer(answer)),
      rows := SetStatus(s.rows, k.id, if answer == Answered then Completed else Failed))
  {
    hide SetStatus;
    var s1 := Worked(s, 0, Infer(answer));
    assert s1.workers[0] == k.(stage := Finishing(answer == Answered));
    assert Enabled(s1, 0, Save(true, false));
    t := Worked(s1, 0, Save(true, false));
  }

  lemma LogAndRemove(s: State, k: Worker) returns (t: State)
    requires |s.workers| > 0 && s.workers[0] == k && k.In(Saved)
    ensures t == Apply(Apply(s, Work(0, Log(true))), Work(0, Remove(true)))
    ensures |t.workers| > 0 && t.workers[0] == Idle
    ensures t.rows == s.rows && t.gpu == s.gpu && t.made == s.made && t.nextFile == s.nextFile
  {
    var s1 := Worked(s, 0, Log(true));
    assert Enabled(s1, 0, Remove(true));
    t := Worked(s1, 0, Remove(true));
  }

  function ToSaved(engine: Engine, answer: Answer): seq<Step> {
    [Upload, Insert(0, engine), Work(0, Take(0))] + [Work(0, GoodPath), Work(0, Acquire), Work(0, Load)]
    + [Work(0, Infer(answer))] + [Work(0, Save(true, false))]
  }

  /** Up to the saved outcome. */
  lemma FirstSaved(s: State, engine: Engine, answer: Answer) returns (t: State)
    requires |s.workers| > 0 && s == Start(|s.workers|, s.now, {})
    ensures t == Run(s, ToSaved(engine, answer))
    ensures |t.workers| > 0 && t.workers[0] == Busy(0, 0, engine, Saved)
    ensures t.gpu == NextGpu(Gpu(Some(0), Some(engine), {engine}, {}, false, false), 0, engine, Infer(answer))
    ensures |t.made| == 1 && t.nextFile == 1
    ensures t.rows == map[0 := Job(0, engine, s.now, if answer == Answered then Completed else Failed)]
  {
    var a, b := [Upload, Insert(0, engine), Work(0, Take(0))], [Work(0, GoodPath), Work(0, Acquire), Work(0, Load)];
    var s3 := NextTaken(s, engine);
    hide Apply, Run;
    var s6 := NextInfers(s3, s3.workers[0]);
    assert {} + {engine} == {engine};
    t := NextSaves(s6, s6.workers[0], answer);
    RunThree(s, Upload, Insert(0, engine), Work(0, Take(0)));
    RunMore(s, a, Work(0, GoodPath), Work(0, Acquire), Work(0, Load));
    RunNext(s, a + b, Work(0, Infer(answer)));
    RunNext(s, a + b + [Work(0, Infer(answer))], Work(0, Save(true, false)));
  }

  /** And until the worker is free for the next job, which it takes. */
  lemma SecondTaken(s: State, first: Engine, second: Engine, answer: Answer) returns (steps: seq<Step>)
    requires |s.workers| > 0 && s == Start(|s.workers|, s.now, {})
    ensures var t := Run(s, steps);
      && |t.workers| > 0 && t.workers[0] == Busy(1, 1, second, Claimed)
      && t.gpu == NextGpu(Gpu(Some(0), Some(first), {first}, {}, false, false), 0, first, Infer(answer))
  {
    var t := FirstSaved(s, first, answer);
    hide Apply, Run;
    var u := LogAndRemove(t, t.workers[0]);
    var v := NextTaken(u, second);
    var a := ToSaved(first, answer);
    var b := a + [Work(0, Log(true))] + [Work(0, Remove(true))];
    steps := b + [Upload, Insert(1, second), Work(0, Take(1))];
    RunNext(s, a, Work(0, Log(true)));
    RunNext(s, a + [Work(0, Log(true))], Work(0, Remove(true)));
    RunMore(s, b, Upload, Insert(1, second), Work(0, Take(1)));
  }

  // ----- both engines in memory

  /** The worker's next job needs the other engine: unloading is tried, and the other engine loads. */
  lemma Switch(s: State, k: Worker, ok: bool)
    requires |s.workers| > 0 && s.workers[0] == k && k.In(Claimed) && s.gpu.lock == None
    requires s.gpu.current.Some? && s.gpu.current.value != k.engine
    ensures var t := Apply(Apply(Apply(Apply(s,
        Work(0, GoodPath)), Work(0, Acquire)), Work(0, Unload(ok))), Work(0, Load));
      && |t.workers| > 0 && t.workers[0] == k.(stage := Inferring)
      && t.gpu == s.gpu.(lock := Some(0), current := Some(k.engine), unloadFailed := s.gpu.unloadFailed || !ok,
        loaded := (if ok then s.gpu.loaded - {s.gpu.current.value} else s.gpu.loaded) + {k.engine})
  {
    hide Apply;
    WorkStep(s, 0, GoodPath);
    var s1 := Worked(s, 0, GoodPath);
    assert s1.workers[0] == k.(stage := Waiting) && s1.gpu == s.gpu;
    WorkStep(s1, 0, Acquire);
    var s2 := Worked(s1, 0, Acquire);
    assert s2.workers[0] == k.(stage := Unloading) && s2.gpu == s.gpu.(lock := Some(0));
    WorkStep(s2, 0, Unload(ok));
    var s3 := Worked(s2, 0, Unload(ok));
    assert s3.workers[0] == k.(stage := Inferring);
    WorkStep(s3, 0, Load);
  }

  lemma SecondSwitches(s: State, before: seq<Step>, ok: bool) returns (steps: seq<Step>)
    requires var t := Run(s, before);
      |t.workers| > 0 && t.workers[0].In(Claimed) && t.gpu.lock == None
      && t.gpu.current.Some? && t.gpu.current.value != t.workers[0].engine
    ensures var t, u := Run(s, before), Run(s, steps);
      && |u.workers| > 0 && u.workers[0] == t.workers[0].(stage := Inferring)
      && u.gpu == t.gpu.(lock := Some(0), current := Some(t.workers[0].engine),
        unloadFailed := t.gpu.unloadFailed || !ok,
        loaded := (if ok then t.gpu.loaded - {t.gpu.current.value} else t.gpu.loaded) + {t.workers[0].engine})
  {
    hide Run, Apply;
    var t := Run(s, before);
    Switch(t, t.workers[0], ok);
    var a := [Work(0, GoodPath), Work(0, Acquire), Work(0, Unload(ok))];
    RunMore(s, before, Work(0, GoodPath), Work(0, Acquire), Work(0, Unload(ok)));
    RunNext(s, before + a, Work(0, Load));
    steps := before + a + [Work(0, Load)];
  }

  /** A gateway that started with no engine loaded has both in memory after one failed unload. */
  lemma FailedUnloadLoadsBoth(s: State) returns (steps: seq<Step>)
    requires |s.workers| > 0 && s == Start(|s.workers|, s.now, {})
    ensures var g := Run(s, steps).gpu; g.unloadFailed && !g.gaveUp && BothLoaded(g)
  {
    hide Run;
    var before := SecondTaken(s, WhisperX, GigaAM, Answered);
    steps := SecondSwitches(s, before, false);
  }

  /** With every unload successful: after a request is given up its engine is at work beside the next one, and
      loads beside it. */
  lemma GivenUpLoadsBoth(s: State) returns (steps: seq<Step>)
    requires |s.workers| > 0 && s == Start(|s.workers|, s.now, {})
    ensures var t := Run(s, steps);
      && |t.workers| > 0 && t.workers[0].In(Inferring) && t.workers[0].engine == GigaAM && t.gpu.adrift == {WhisperX}
      && !t.gpu.unloadFailed && t.gpu.gaveUp && BothLoaded(t.gpu)
  {
    hide Run;
    var before := SecondTaken(s, WhisperX, GigaAM, GivenUp);
    var most := SecondSwitches(s, before, true);
    RunNext(s, most, LateLoad(WhisperX));
    steps := most + [LateLoad(WhisperX)];
  }

  // ----- an outcome that changes

  /** A completed job becomes failed when writing the log entry fails after its outcome was saved. */
  lemma CompletedCanFail(s: State, engine: Engine) returns (before: seq<Step>, after: seq<Step>)
    requires |s.workers| > 0 && s == Start(|s.workers|, s.now, {})
    ensures var was := Run(s, before).rows; 0 in was && was[0].status == Completed
    ensures var later := Run(s, before + after).rows; 0 in later && later[0].status == Failed
  {
    before := ToSaved(engine, Answered);
    var t := FirstSaved(s, engine, Answered);
    after := LogThenRecover(t, 0, 0);
    RunSplit(s, before, after);
  }

  lemma LogThenRecover(s: State, w: nat, id: nat) returns (steps: seq<Step>)
    requires MayFail(s, w, id) && id in s.rows
    ensures id in Run(s, steps).rows && Run(s, steps).rows[id].status == Failed
  {
    NoRun(s);
    if s.workers[w].In(Saved) {
      var s1 := Worked(s, w, Log(false));
      assert s1.workers[w] == s.workers[w].(stage := Recovering) && Enabled(s1, w, Recover(true));
      assert s1.rows == s.rows;
      hide Run;
      RunNext(s, [], Work(w, Log(false)));
      RunNext(s, [] + [Work(w, Log(false))], Work(w, Recover(true)));
      steps := [] + [Work(w, Log(false))] + [Work(w, Recover(true))];
    } else {
      hide Run;
      RunNext(s, [], Work(w, Recover(true)));
      steps := [] + [Work(w, Recover(true))];
    }
  }

  /** The worker has this job in hand and has still to write its log entry, or has failed to. */
  ghost predicate MayFail(s: State, w: nat, id: nat) {
    w < |s.workers| && (s.workers[w].In(Saved) || s.workers[w].In(Recovering)) && s.workers[w].id == id
  }

  /** No worker will write to the row of this job any more. */
  ghost predicate Settled(s: State, id: nat) {
    && id < |s.made|
    && (id in s.rows ==> !s.rows[id].Active())
    && forall w: nat :: w < |s.workers| && s.workers[w].Busy? && s.workers[w].id == id ==> s.workers[w].In(Removing)
  }

  lemma SettledStays(s: State, step: Step, id: nat)
    requires Settled(s, id)
    ensures Settled(Apply(s, step), id)
    ensures id in Apply(s, step).rows ==> id in s.rows && Apply(s, step).rows[id] == s.rows[id]
  {
    if step.Work? && Enabled(s, step.w, step.act) && !step.act.Take? {
      hide Settled;
      WorkSettled(s, step.w, step.act, id);
    }
  }

  lemma WorkSettled(s: State, w: nat, act: Act, id: nat)
    requires Settled(s, id) && !act.Take? && Enabled(s, w, act)
    ensures Settled(Worked(s, w, act), id)
    ensures id in Worked(s, w, act).rows ==> id in s.rows && Worked(s, w, act).rows[id] == s.rows[id]
  {
  }

  lemma {:induction false} RunSettled(s: State, steps: seq<Step>, id: nat)
    requires Settled(s, id)
    ensures Settled(Run(s, steps), id)
    ensures id in Run(s, steps).rows ==> id in s.rows && Run(s, steps).rows[id] == s.rows[id]
  {
    hide Apply, Settled;
    if steps != [] {
      RunSettled(s, steps[..|steps| - 1], id);
      SettledStays(Run(s, steps[..|steps| - 1]), steps[|steps| - 1], id);
    }
  }

  ghost predicate Changes(s: State, steps: seq<Step>, id: nat)
    requires id in s.rows
  {
    id in Run(s, steps).rows && Run(s, steps).rows[id] != s.rows[id]
  }

  /** At any point of any run, the outcome of a job can still change if and only if it is not failed and a worker has
      still to write its log entry, or has failed to. */
  lemma OutcomeOpen(n: nat, now: int, loaded: set<Engine>, before: seq<Step>, id: nat)
    requires id in Run(Start(n, now, loaded), before).rows
    requires !Run(Start(n, now, loaded), before).rows[id].Active()
    ensures var s := Run(Start(n, now, loaded), before);
      (exists after :: Changes(s, after, id)) <==> s.rows[id].status != Failed && exists w: nat :: MayFail(s, w, id)
  {
    hide Run;
    var s := Run(Start(n, now, loaded), before);
    StartInv(n, now, loaded);
    RunInv(Start(n, now, loaded), before);
    if s.rows[id].status == Failed {
      forall after
        ensures !Changes(s, after, id)
      {
        RunMovesOn(s, after);
      }
    } else if exists w: nat :: MayFail(s, w, id) {
      var w: nat :| MayFail(s, w, id);
      var after := LogThenRecover(s, w, id);
      assert Changes(s, after, id);
    } else {
      NoneMayFail(s, id);
      forall after
        ensures !Changes(s, after, id)
      {
        RunSettled(s, after, id);
      }
    }
  }

  lemma NoneMayFail(s: State, id: nat)
    requires RowsNumbered(s) && RowsFollow(s) && id in s.rows && !s.rows[id].Active()
    requires forall w: nat :: !MayFail(s, w, id)
    ensures Settled(s, id)
  {
    forall w: nat | w < |s.workers| && s.workers[w].Busy? && s.workers[w].id == id
      ensures s.workers[w].In(Removing)
    {
      assert !MayFail(s, w, id);
    }
  }

  // ----- a file that is lost

  /** After these steps the cleaner removes the file of this row, which is pending or processing. */
  ghost predicate LosesFile(s: State, steps: seq<Step>, id: nat) {
    var t := Run(s, steps);
    && id in t.rows && t.rows[id].Active()
    && t.rows[id].file in t.files && t.rows[id].file !in Apply(t, Sweep(true)).files
  }

  /** The cleaner does not have this row's file in hand while the row is pending or processing. */
  ghost predicate NotChosen(s: State, id: nat) {
    id < |s.made| && (id in s.rows && s.rows[id].Active() ==> s.cleaner != Doomed(s.rows[id].file))
  }

  lemma NotChosenStays(s: State, step: Step, id: nat)
    requires RowsNumbered(s) && RowsFollow(s) && NotChosen(s, id)
    ensures NotChosen(Apply(s, step), id)
  {
    StepMovesOn(s, step);
  }

  lemma {:induction false} RunNotChosen(s: State, steps: seq<Step>, id: nat)
    requires Inv(s) && NotChosen(s, id)
    ensures NotChosen(Run(s, steps), id)
  {
    hide Apply, NotChosen, RowsFollow;
    if steps != [] {
      RunInv(s, steps[..|steps| - 1]);
      RunNotChosen(s, steps[..|steps| - 1], id);
      NotChosenStays(Run(s, steps[..|steps| - 1]), steps[|steps| - 1], id);
    }
  }

  /** At any point of any run, a pending or processing row whose file is there can lose it to the cleaner if and only if
      the cleaner has chosen the file already. */
  lemma LostOnlyIfChosen(n: nat, now: int, loaded: set<Engine>, before: seq<Step>, id: nat)
    requires var s := Run(Start(n, now, loaded), before);
      id in s.rows && s.rows[id].Active() && s.rows[id].file in s.files
    ensures var s := Run(Start(n, now, loaded), before);
      (exists after :: LosesFile(s, after, id)) <==> s.cleaner == Doomed(s.rows[id].file)
  {
    hide Run;
    var s := Run(Start(n, now, loaded), before);
    StartInv(n, now, loaded);
    RunInv(Start(n, now, loaded), before);
    if s.cleaner == Doomed(s.rows[id].file) {
      NoRun(s);
      assert LosesFile(s, [], id);
    } else {
      forall after
        ensures !LosesFile(s, after, id)
      {
        RunNotChosen(s, after, id);
      }
    }
  }

  /** A row that came this many seconds after its file is pending, and the file is gone. */
  ghost predicate PendingWithoutFile(s: State, age: nat) {
    exists id: nat :: WithoutFile(s, id, age)
  }

  ghost predicate WithoutFile(s: State, id: nat, age: nat) {
    && id in s.rows && s.rows[id].status == Pending && s.rows[id].file !in s.files
    && s.rows[id].file in s.stored && s.rows[id].createdAt - s.stored[s.rows[id].file] == age
  }

  /** The age of a file when its row comes decides: some run leaves a row of that age waiting without its file if and
      only if it is more than a day. */
  lemma AgeDecides(n: nat, now: int, loaded: set<Engine>, age: nat)
    ensures (exists steps :: PendingWithoutFile(Run(Start(n, now, loaded), steps), age)) <==> age > RETENTION
  {
    hide Run;
    var s := Start(n, now, loaded);
    if age > RETENTION {
      var steps := LateRowLosesFile(s, WhisperX, age);
      assert WithoutFile(Run(s, steps), 0, age);
      assert PendingWithoutFile(Run(s, steps), age);
    } else {
      forall steps
        ensures !PendingWithoutFile(Run(s, steps), age)
      {
        StartInv(n, now, loaded);
        RunInv(s, steps);
      }
    }
  }

  /** A row that comes more than a day after its file may find it gone, or lose it at once. */
  lemma LateRowLosesFile(s: State, engine: Engine, age: nat) returns (steps: seq<Step>)
    requires s == Start(|s.workers|, s.now, s.gpu.loaded) && age > RETENTION
    ensures var t := Run(s, steps);
      && t.rows == map[0 := Job(0, engine, s.now + age, Pending)] && t.files == map[] && t.stored == map[0 := s.now]
  {
    hide Run, Apply;
    var since := s.now + age;
    var first := [Upload, Tick(age), Check(0, since)];
    RunThree(s, Upload, Tick(age), Check(0, since));
    var t := LateChoice(s, age);
    LateRow(t, engine);
    RunNext(s, first, Insert(0, engine));
    RunNext(s, first + [Insert(0, engine)], Sweep(true));
    steps := first + [Insert(0, engine)] + [Sweep(true)];
  }

  lemma LateChoice(s: State, age: nat) returns (t: State)
    requires s == Start(|s.workers|, s.now, s.gpu.loaded) && age > RETENTION
    ensures t == Apply(Apply(Apply(s, Upload), Tick(age)), Check(0, s.now + age))
    ensures t.rows == map[] && t.made == [] && t.uploads == {0} && t.cleaner == Doomed(0)
    ensures t.files == map[0 := s.now] == t.stored && t.now == s.now + age
  {
    var s1 := Apply(s, Upload);
    assert s1 == s.(files := map[0 := s.now], uploads := {0}, nextFile := 1, stored := map[0 := s.now]);
    var s2 := Apply(s1, Tick(age));
    t := Apply(s2, Check(0, s2.now));
  }

  lemma LateRow(s: State, engine: Engine)
    requires s.rows == map[] && s.made == [] && s.uploads == {0} && s.cleaner == Doomed(0)
    requires 0 in s.files && s.files == map[0 := s.files[0]]
    ensures var t := Apply(Apply(s, Insert(0, engine)), Sweep(true));
      t.rows == map[0 := Job(0, engine, s.now, Pending)] && t.files == map[] && t.stored == s.stored
  {
    var s1 := Inserted(s, 0, engine);
    var t := Apply(s1, Sweep(true));
    assert t.files == s.files - {0};
  }

  /** Expiry deletes rows still processing, and with the row goes the protection of its file. */
  lemma ExpiredLosesFile(s: State, engine: Engine) returns (steps: seq<Step>)
    requires |s.workers| > 0 && s == Start(|s.workers|, s.now, s.gpu.loaded)
    ensures var t := Run(s, steps);
      t.missed == {} && |t.workers| > 0 && t.workers[0] == Busy(0, 0, engine, Claimed) && t.files == map[]
  {
    var s3 := NextTaken(s, engine);
    assert s3.missed == {};
    var first := [Upload, Insert(0, engine), Work(0, Take(0))];
    var second := [Tick(RETENTION + 1), Expire, Check(0, s.now + RETENTION + 1)];
    var s6 := ExpiredChoice(s3);
    hide Run, Apply;
    RunThree(s, Upload, Insert(0, engine), Work(0, Take(0)));
    RunMore(s, first, Tick(RETENTION + 1), Expire, Check(0, s.now + RETENTION + 1));
    RunNext(s, first + second, Sweep(true));
    SweepLast(s6);
    steps := first + second + [Sweep(true)];
  }

  lemma ExpiredChoice(s: State) returns (t: State)
    requires s.rows.Keys == {0} && s.rows[0].createdAt == s.now && s.files == map[0 := s.now] && s.cleaner == Resting
    ensures t == Apply(Apply(Apply(s, Tick(RETENTION + 1)), Expire), Check(0, s.now + RETENTION + 1))
    ensures t.cleaner == Doomed(0) && t.files == s.files && t.workers == s.workers && t.missed == s.missed
  {
    var s1 := Apply(s, Tick(RETENTION + 1));
    var s2 := Apply(s1, Expire);
    assert s2.rows == map[];
    t := Apply(s2, Check(0, s2.now));
  }

  lemma SweepLast(s: State)
    requires s.cleaner == Doomed(0) && s.files.Keys == {0}
    ensures var t := Apply(s, Sweep(true)); t.files == map[] && t.workers == s.workers && t.missed == s.missed
  {
  }
}
