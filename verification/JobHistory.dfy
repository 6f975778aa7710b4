/** What must have happened in a run for a row to be as it is: why a job has its outcome, and how long a row lives. */
module JobHistory {
  import opened Words
  import opened JobProtocol
  import opened JobSafety

  // ----- why a job has its outcome

  /** In step k the worker that has this job in hand does this. */
  ghost predicate ActAt(s: State, steps: seq<Step>, k: nat, id: nat, act: Act) {
    && k < |steps| && steps[k].Work? && steps[k].act == act
    && Doing(Run(s, steps[..k]), steps[k].w, id, act)
  }

  ghost predicate Doing(s: State, w: nat, id: nat, act: Act) {
    w < |s.workers| && s.workers[w].Busy? && s.workers[w].id == id && Enabled(s, w, act)
  }

  ghost predicate Happened(s: State, steps: seq<Step>, id: nat, act: Act) {
    exists k: nat :: ActAt(s, steps, k, id, act)
  }

  lemma HappenedBefore(s: State, init: seq<Step>, last: Step, id: nat, act: Act)
    requires Happened(s, init, id, act)
    ensures Happened(s, init + [last], id, act)
  {
    hide Run, Doing;
    var k: nat :| ActAt(s, init, k, id, act);
    assert (init + [last])[..k] == init[..k];
    assert ActAt(s, init + [last], k, id, act);
  }

  lemma HappensLast(s: State, init: seq<Step>, w: nat, id: nat, act: Act)
    requires Doing(Run(s, init), w, id, act)
    ensures Happened(s, init + [Work(w, act)], id, act)
  {
    hide Run, Doing;
    var steps := init + [Work(w, act)];
    assert steps[..|init|] == init;
    assert ActAt(s, steps, |init|, id, act);
  }

  /** The engine answered, or did not. */
  ghost predicate Inferred(s: State, steps: seq<Step>, id: nat, ok: bool) {
    if ok then Happened(s, steps, id, Infer(Answered))
    else Happened(s, steps, id, Infer(Refused)) || Happened(s, steps, id, Infer(GivenUp))
  }

  /** What an outcome goes back to. */
  ghost predicate Caused(s: State, steps: seq<Step>, id: nat, status: Status) {
    match status
    case Pending => true
    case Processing => true
    case Completed => Inferred(s, steps, id, true) && Happened(s, steps, id, Save(true, false))
    case Filtered => Inferred(s, steps, id, true) && Happened(s, steps, id, Save(true, true))
    case Failed =>
      || Inferred(s, steps, id, false)
      || Happened(s, steps, id, BadPath(true))
      || Happened(s, steps, id, Recover(true))
  }

  lemma InferredBefore(s: State, init: seq<Step>, last: Step, id: nat, ok: bool)
    requires Inferred(s, init, id, ok)
    ensures Inferred(s, init + [last], id, ok)
  {
    hide Happened;
    forall act | Happened(s, init, id, act)
      ensures Happened(s, init + [last], id, act)
    {
      HappenedBefore(s, init, last, id, act);
    }
  }

  lemma CausedBefore(s: State, init: seq<Step>, last: Step, id: nat, status: Status)
    requires Caused(s, init, id, status)
    ensures Caused(s, init + [last], id, status)
  {
    hide Happened, Inferred;
    forall act | Happened(s, init, id, act)
      ensures Happened(s, init + [last], id, act)
    {
      HappenedBefore(s, init, last, id, act);
    }
    forall ok | Inferred(s, init, id, ok)
      ensures Inferred(s, init + [last], id, ok)
    {
      InferredBefore(s, init, last, id, ok);
    }
  }

  ghost predicate RowsCaused(s: State, steps: seq<Step>, t: State) {
    forall id: nat :: id in t.rows ==> Caused(s, steps, id, t.rows[id].status)
  }

  ghost predicate WorkersInferred(s: State, steps: seq<Step>, t: State) {
    forall w: nat :: w < |t.workers| && t.workers[w].Busy? && t.workers[w].stage.Finishing? ==>
      Inferred(s, steps, t.workers[w].id, t.workers[w].stage.ok)
  }

  /** What a worker's step writes: the row of its own job alone, and an outcome only by these steps. */
  lemma WritesOwn(t: State, w: nat, act: Act, id: nat)
    requires !act.Take? && Enabled(t, w, act) && id in t.rows
    ensures id in Worked(t, w, act).rows
    ensures var now := Worked(t, w, act).rows[id].status;
      now != t.rows[id].status ==>
        && Doing(t, w, id, act)
        && match now
           case Completed => act == Save(true, false) && t.workers[w].stage == Finishing(true)
           case Filtered => act == Save(true, true) && t.workers[w].stage == Finishing(true)
           case Failed =>
             act == BadPath(true) || act == Recover(true) || (act.Save? && t.workers[w].stage == Finishing(false))
           case _ => false
  {
  }

  lemma WorkCaused(s: State, init: seq<Step>, w: nat, act: Act, id: nat)
    requires !act.Take? && Enabled(Run(s, init), w, act)
    requires RowsCaused(s, init, Run(s, init)) && WorkersInferred(s, init, Run(s, init))
    requires id in Run(s, init).rows
    ensures id in Worked(Run(s, init), w, act).rows
    ensures Caused(s, init + [Work(w, act)], id, Worked(Run(s, init), w, act).rows[id].status)
  {
    hide Run, Happened, Worked, Doing;
    var t := Run(s, init);
    WritesOwn(t, w, act, id);
    CausedBefore(s, init, Work(w, act), id, t.rows[id].status);
    if Worked(t, w, act).rows[id].status != t.rows[id].status {
      HappensLast(s, init, w, id, act);
      DoingIs(t, w, id, act);
      if t.workers[w].stage.Finishing? {
        InferredBefore(s, init, Work(w, act), id, t.workers[w].stage.ok);
      }
    }
  }

  lemma DoingIs(s: State, w: nat, id: nat, act: Act)
    requires Doing(s, w, id, act)
    ensures w < |s.workers| && s.workers[w].Busy? && s.workers[w].id == id
  {
  }

  /** A worker comes to finish only by inferring. */
  lemma WorkInferred(s: State, init: seq<Step>, w: nat, act: Act, v: nat)
    requires !act.Take? && Enabled(Run(s, init), w, act) && WorkersInferred(s, init, Run(s, init))
    requires var u := Worked(Run(s, init), w, act);
      v < |u.workers| && u.workers[v].Busy? && u.workers[v].stage.Finishing?
    ensures var u := Worked(Run(s, init), w, act);
      Inferred(s, init + [Work(w, act)], u.workers[v].id, u.workers[v].stage.ok)
  {
    hide Run, Happened;
    var t, u := Run(s, init), Worked(Run(s, init), w, act);
    if v != w || u.workers[v] == t.workers[v] {
      InferredBefore(s, init, Work(w, act), u.workers[v].id, u.workers[v].stage.ok);
    } else {
      assert act.Infer? && Doing(t, w, u.workers[v].id, act);
      HappensLast(s, init, w, u.workers[v].id, act);
    }
  }

  /** Other steps write no outcome and bring no worker there. */
  lemma OtherSteps(t: State, step: Step)
    requires RowsNumbered(t)
    requires !(step.Work? && Enabled(t, step.w, step.act) && !step.act.Take?)
    ensures var u := Apply(t, step);
      && (forall id: nat :: id in u.rows ==>
            u.rows[id].status in {Pending, Processing} || (id in t.rows && u.rows[id] == t.rows[id]))
      && (forall w: nat :: w < |u.workers| && u.workers[w].Busy? && u.workers[w].stage.Finishing? ==>
            w < |t.workers| && u.workers[w] == t.workers[w])
  {
  }

  lemma {:induction false} RunCaused(n: nat, now: int, loaded: set<Engine>, steps: seq<Step>)
    ensures var s := Start(n, now, loaded);
      RowsCaused(s, steps, Run(s, steps)) && WorkersInferred(s, steps, Run(s, steps))
  {
    var s := Start(n, now, loaded);
    if steps != [] {
      var init, last := steps[..|steps| - 1], steps[|steps| - 1];
      assert steps == init + [last];
      RunCaused(n, now, loaded, init);
      StartInv(n, now, loaded);
      RunInv(s, init);
      StepCaused(s, init, last);
      RunNext(s, init, last);
    }
  }

  lemma StepCaused(s: State, init: seq<Step>, last: Step)
    requires RowsNumbered(Run(s, init))
    requires RowsCaused(s, init, Run(s, init)) && WorkersInferred(s, init, Run(s, init))
    ensures var u := Apply(Run(s, init), last);
      RowsCaused(s, init + [last], u) && WorkersInferred(s, init + [last], u)
  {
    hide Run, Happened, Inferred, Apply, RowsNumbered, Enabled, Worked;
    var t, u := Run(s, init), Apply(Run(s, init), last);
    if last.Work? && Enabled(t, last.w, last.act) && !last.act.Take? {
      WorkStep(t, last.w, last.act);
      SameIds(t, last.w, last.act);
      forall id: nat | id in u.rows
        ensures Caused(s, init + [last], id, u.rows[id].status)
      {
        WorkCaused(s, init, last.w, last.act, id);
      }
      forall v: nat | v < |u.workers| && u.workers[v].Busy? && u.workers[v].stage.Finishing?
        ensures Inferred(s, init + [last], u.workers[v].id, u.workers[v].stage.ok)
      {
        WorkInferred(s, init, last.w, last.act, v);
      }
    } else {
      OtherSteps(t, last);
      forall id: nat | id in u.rows
        ensures Caused(s, init + [last], id, u.rows[id].status)
      {
        if id in t.rows { CausedBefore(s, init, last, id, t.rows[id].status); }
      }
      forall v: nat | v < |u.workers| && u.workers[v].Busy? && u.workers[v].stage.Finishing?
        ensures Inferred(s, init + [last], u.workers[v].id, u.workers[v].stage.ok)
      {
        InferredBefore(s, init, last, u.workers[v].id, u.workers[v].stage.ok);
      }
    }
  }

  lemma SameIds(t: State, w: nat, act: Act)
    requires !act.Take? && Enabled(t, w, act)
    ensures Worked(t, w, act).rows.Keys == t.rows.Keys
  {
  }

  /** In every run: a completed job's engine answered and its result was saved unfiltered; a filtered one's engine
      answered and its result was saved as filtered; of a failed one the path was refused, the engine refused or was
      given up, or a failure after that was recorded. */
  lemma OutcomeHasCause(n: nat, now: int, loaded: set<Engine>, steps: seq<Step>, id: nat)
    requires id in Run(Start(n, now, loaded), steps).rows
    ensures Caused(Start(n, now, loaded), steps, id, Run(Start(n, now, loaded), steps).rows[id].status)
  {
    RunCaused(n, now, loaded, steps);
  }

  // ----- how long a row lives

  lemma StepLives(s: State, step: Step, id: nat)
    requires RowsNumbered(s) && id in s.rows
    ensures Apply(s, step).now >= s.now
    ensures id !in Apply(s, step).rows ==> step.Expire? && s.now - s.rows[id].createdAt > 86400
    ensures step.Expire? && s.now - s.rows[id].createdAt > 86400 ==> id !in Apply(s, step).rows
  {
  }

  lemma {:induction false} RunLives(s: State, steps: seq<Step>, id: nat)
    requires Inv(s) && id in s.rows
    ensures Run(s, steps).now >= s.now
    ensures Run(s, steps).now - s.rows[id].createdAt <= 86400 ==> id in Run(s, steps).rows
  {
    hide Apply, Inv;
    if steps != [] {
      var init, last := steps[..|steps| - 1], steps[|steps| - 1];
      RunInv(s, init);
      RunMovesOn(s, init);
      RunLives(s, init, id);
      InvRows(s);
      InvRows(Run(s, init));
      NowGoesOn(Run(s, init), last);
      if id in Run(s, init).rows { StepLives(Run(s, init), last, id); }
    }
  }

  lemma NowGoesOn(s: State, step: Step)
    ensures Apply(s, step).now >= s.now
  {
  }

  lemma InvRows(s: State)
    requires Inv(s)
    ensures RowsNumbered(s)
  {
  }

  /** In every run a row stays for a day, whatever happens; the first expiry after that takes it. */
  lemma RowLives(n: nat, now: int, loaded: set<Engine>, before: seq<Step>, after: seq<Step>, id: nat)
    requires id in Run(Start(n, now, loaded), before).rows
    ensures var s, t := Run(Start(n, now, loaded), before), Run(Start(n, now, loaded), before + after);
      && (t.now - s.rows[id].createdAt <= 86400 ==> id in t.rows)
      && (s.now - s.rows[id].createdAt > 86400 ==> id !in Apply(s, Expire).rows)
  {
    hide Apply;
    var s := Start(n, now, loaded);
    StartInv(n, now, loaded);
    RunInv(s, before);
    RunSplit(s, before, after);
    RunLives(Run(s, before), after, id);
    StepLives(Run(s, before), Expire, id);
  }

  // ----- what a worker has in hand

  /** A worker has its row's file, and works with its row's engine. */
  ghost predicate OwnRow(s: State) {
    forall w: nat :: w < |s.workers| && s.workers[w].Busy? && s.workers[w].id in s.rows ==>
      var k := s.workers[w];
      k.file == s.rows[k.id].file && k.engine == s.rows[k.id].engine
  }

  lemma TakeOwnRow(s: State, w: nat, id: nat)
    requires OwnRow(s) && Enabled(s, w, Take(id))
    ensures OwnRow(Taken(s, w, id))
  {
  }

  lemma WorkOwnRow(s: State, w: nat, act: Act)
    requires OwnRow(s) && !act.Take? && Enabled(s, w, act)
    ensures OwnRow(Worked(s, w, act))
  {
  }

  lemma StepOwnRow(s: State, step: Step)
    requires RowsNumbered(s) && WorkersNumbered(s) && OwnRow(s)
    ensures OwnRow(Apply(s, step))
  {
    if step.Work? {
      hide OwnRow;
      if Enabled(s, step.w, step.act) {
        if step.act.Take? { TakeOwnRow(s, step.w, step.act.id); } else { WorkOwnRow(s, step.w, step.act); }
      }
    }
  }

  /** In every run each worker has the file and the engine of its job's row. */
  lemma {:induction false} WorkersOwnRow(n: nat, now: int, loaded: set<Engine>, steps: seq<Step>)
    ensures OwnRow(Run(Start(n, now, loaded), steps))
  {
    hide Apply, Inv, OwnRow;
    var s := Start(n, now, loaded);
    if steps == [] {
      StartOwnRow(n, now, loaded);
    } else {
      var init, last := steps[..|steps| - 1], steps[|steps| - 1];
      WorkersOwnRow(n, now, loaded, init);
      StartInv(n, now, loaded);
      RunInv(s, init);
      InvNumbered(Run(s, init));
      StepOwnRow(Run(s, init), last);
    }
  }

  lemma StartOwnRow(n: nat, now: int, loaded: set<Engine>)
    ensures OwnRow(Start(n, now, loaded))
  {
  }

  lemma InvNumbered(s: State)
    requires Inv(s)
    ensures RowsNumbered(s) && WorkersNumbered(s)
  {
  }

  // ----- what comes and goes

  /** An engine comes into memory only as a worker on it infers, or goes on with a request given up; it leaves only by a
      successful unload while it is the current one. */
  lemma EnginesComeAndGo(s: State, step: Step, e: Engine)
    ensures var t := Apply(s, step);
      && (e in t.gpu.loaded && e !in s.gpu.loaded ==>
            || (step == LateLoad(e) && e in s.gpu.adrift)
            || (step.Work? && step.act == Load && step.w < |s.workers| && s.workers[step.w].In(Inferring)
                && s.workers[step.w].engine == e))
      && (e in s.gpu.loaded && e !in t.gpu.loaded ==>
            step.Work? && step.act == Unload(true) && s.gpu.current == Some(e))
  {
  }

  /** A file goes only as its insertion fails, as the worker on it removes it, or as the cleaner removes its choice. */
  lemma FilesGo(s: State, step: Step, f: nat)
    requires f in s.files
    ensures f !in Apply(s, step).files <==>
      || (step == InsertFails(f) && f in s.uploads)
      || (step.Work? && step.act == Remove(true) && step.w < |s.workers| && s.workers[step.w].In(Removing)
          && s.workers[step.w].file == f)
      || (step == Sweep(true) && s.cleaner == Doomed(f))
  {
  }

  /** A row comes only as an upload is inserted: pending, for the file and the engine asked for, made now. */
  lemma RowsCome(s: State, step: Step, id: nat)
    requires RowsNumbered(s) && id in Apply(s, step).rows && id !in s.rows
    ensures step.Insert? && step.file in s.uploads && id == |s.made|
    ensures Apply(s, step).rows[id] == Job(step.file, step.engine, s.now, Pending)
  {
  }
}
