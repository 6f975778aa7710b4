/** The gateway's own code: the statements on the job table, process_job and one pass of the cleaner, with what
    happens outside given as luck. The two latter, uninterrupted, are runs of the machine's steps. */
module JobGateway {
  import opened Words
  import opened JobProtocol
  import opened JobSafety

  /** How each thing that process_job asks of others turns out. */
  datatype Luck = Luck(pathValid: bool, unloaded: bool, loads: bool, answer: Answer, filtered: bool,
    saved: bool, logged: bool, recorded: bool, removed: bool)

  class Gateway {
    var rows: map<nat, Job>
    var files: map<nat, int>
    var lock: Option<nat>
    var current: Option<Engine>
    var loaded: set<Engine>
    var adrift: set<Engine>
    var unloadFailed: bool
    var gaveUp: bool

    constructor (loaded: set<Engine>)
      ensures rows == map[] && files == map[] && Device() == Gpu(None, None, loaded, {}, false, false)
    {
      rows, files := map[], map[];
      lock, current, adrift, unloadFailed, gaveUp := None, None, {}, false, false;
      this.loaded := loaded;
    }

    function Device(): Gpu
      reads this
    {
      Gpu(lock, current, loaded, adrift, unloadFailed, gaveUp)
    }

    method GetNextPendingJobAtomic() returns (id: Option<nat>)
      modifies this`rows
      ensures id.None? ==> rows == old(rows) && forall i: nat :: i in rows ==> rows[i].status != Pending
      ensures id.Some? ==> OldestPending(old(rows), id.value) && rows == SetStatus(old(rows), id.value, Processing)
    {
      id := None;
      var left := rows.Keys;
      while left != {}
        invariant left <= rows.Keys
        invariant id.Some? ==> id.value in rows && rows[id.value].status == Pending
        invariant forall i: nat :: i in rows && i !in left && rows[i].status == Pending ==>
          id.Some? && rows[id.value].createdAt <= rows[i].createdAt
        decreases |left|
      {
        var i :| i in left;
        left := left - {i};
        if rows[i].status == Pending && (id.None? || rows[i].createdAt < rows[id.value].createdAt) { id := Some(i); }
      }
      if id.Some? { rows := SetStatus(rows, id.value, Processing); }
    }

    method UpdateJob(id: nat, status: Status)
      modifies this`rows
      ensures rows == SetStatus(old(rows), id, status)
    {
      if id in rows { rows := rows[id := rows[id].(status := status)]; }
    }

    /** What process_job does under the GPU lock. */
    method InferUnderLock(w: nat, engine: Engine, luck: Luck) returns (status: Status)
      requires lock.None?
      modifies this`lock, this`current, this`loaded, this`adrift, this`unloadFailed, this`gaveUp
      ensures luck.pathValid ==> Device() == GpuAfter(old(Device()), engine, luck)
      ensures status == if luck.answer == Answered then Completed else Failed
    {
      lock := Some(w);
      if current.Some? && current.value != engine {
        if luck.unloaded { loaded := loaded - {current.value}; } else { unloadFailed := true; }
      }
      current := Some(engine);
      status := Completed;
      if luck.loads { loaded := loaded + {engine}; }
      if luck.answer != Answered { status := Failed; }
      if luck.answer == GivenUp { adrift, gaveUp := adrift + {engine}, true; }
      lock := None;
    }

    method ProcessJob(w: nat, id: nat, job: Job, luck: Luck)
      requires lock.None?
      modifies this
      ensures rows == RowsAfter(old(rows), id, luck)
      ensures files == FilesAfter(old(files), job.file, luck)
      ensures Device() == GpuAfter(old(Device()), job.engine, luck)
      ensures forall f: nat :: f in files <==> f in old(files) && !(f == job.file && luck.pathValid && luck.removed)
    {
      hide SetStatus, GpuAfter;
      WrittenTwice(rows, id, Outcome(luck), Failed);
      if !luck.pathValid {
        InvalidPath(Device(), job.engine, luck);
        if luck.recorded { UpdateJob(id, Failed); }
        return;
      }
      var status := InferUnderLock(w, job.engine, luck);
      var fine := luck.saved;
      if fine {
        if status == Completed && luck.filtered { status := Filtered; }
        UpdateJob(id, status);
        fine := luck.logged;
      }
      if !fine && luck.recorded { UpdateJob(id, Failed); }
      if luck.removed { files := files - {job.file}; }
    }

    /** The expired rows go first, then each old file that no pending or processing row names, if it can be removed. */
    method CleanUp(listing: seq<nat>, now: int, removes: nat -> bool)
      modifies this`rows, this`files
      ensures rows == Unexpired(old(rows), now)
      ensures forall i: nat :: i in rows <==> i in old(rows) && now - old(rows)[i].createdAt <= 86400
      ensures Cleaned(old(files), files, rows, listing, now, removes)
    {
      rows := Unexpired(rows, now);
      hide Unexpired;
      for i := 0 to |listing|
        invariant rows == Unexpired(old(rows), now)
        invariant Cleaned(old(files), files, rows, listing[..i], now, removes)
      {
        assert listing[..i + 1] == listing[..i] + [listing[i]];
        var f := listing[i];
        if f in files && now - files[f] > RETENTION {
          var active := IsActive(rows, f);
          if !active && removes(f) { files := files - {f}; }
        }
      }
      assert listing[..|listing|] == listing;
    }
  }

  /** The orphans among the listed files are gone, as far as they could be removed, and nothing else. */
  ghost predicate Cleaned(before: map<nat, int>, after: map<nat, int>, rows: map<nat, Job>, listing: seq<nat>, now: int,
      removes: nat -> bool)
  {
    && (forall f: nat :: f in after <==> f in before && !(f in listing && removes(f) && Orphan(rows, before, f, now)))
    && (forall f: nat :: f in after ==> after[f] == before[f])
  }

  predicate Orphan(rows: map<nat, Job>, files: map<nat, int>, f: nat, now: int) {
    f in files && now - files[f] > RETENTION && !IsActive(rows, f)
  }

  lemma WrittenTwice(rows: map<nat, Job>, id: nat, a: Status, b: Status)
    ensures SetStatus(SetStatus(rows, id, a), id, b) == SetStatus(rows, id, b)
  {
  }

  // ----- what process_job leaves behind

  function Outcome(luck: Luck): Status {
    if luck.answer != Answered then Failed else if luck.filtered then Filtered else Completed
  }

  function RowsAfter(rows: map<nat, Job>, id: nat, luck: Luck): map<nat, Job> {
    if luck.pathValid && luck.saved && (luck.logged || !luck.recorded) then SetStatus(rows, id, Outcome(luck))
    else if luck.recorded then SetStatus(rows, id, Failed)
    else rows
  }

  /** The job's row, and no other, gets the outcome: completed or filtered if the engine answered and the result was
      saved, unless its log entry failed and that was recorded; failed if the engine did not answer or any failure was
      recorded; and it is left processing exactly when a failure could be neither saved nor recorded. */
  lemma RowAfter(rows: map<nat, Job>, id: nat, luck: Luck)
    requires id in rows && rows[id].status == Processing
    ensures var after := RowsAfter(rows, id, luck);
      var saved := luck.pathValid && luck.saved && (luck.logged || !luck.recorded);
      && after.Keys == rows.Keys && (forall i: nat :: i in rows && i != id ==> after[i] == rows[i])
      && after[id] == rows[id].(status := after[id].status)
      && (after[id].status == Completed <==> saved && luck.answer == Answered && !luck.filtered)
      && (after[id].status == Filtered <==> saved && luck.answer == Answered && luck.filtered)
      && (after[id].status == Processing <==> !luck.recorded && !(luck.pathValid && luck.saved))
      && after[id].status != Pending
  {
  }

  function FilesAfter(files: map<nat, int>, file: nat, luck: Luck): map<nat, int> {
    if luck.pathValid && luck.removed then files - {file} else files
  }

  /** The lock is free; an engine whose request was given up goes on. */
  function Ended(g: Gpu, engine: Engine, answer: Answer): Gpu {
    if answer == GivenUp then g.(lock := None, adrift := g.adrift + {engine}, gaveUp := true) else g.(lock := None)
  }

  function GpuAfter(g: Gpu, engine: Engine, luck: Luck): Gpu {
    if !luck.pathValid then g
    else
      var swap := NeedsUnload(g.current, engine);
      var left := if swap && luck.unloaded then g.loaded - {g.current.value} else g.loaded;
      Ended(Gpu(Some(0), Some(engine), if luck.loads then left + {engine} else left, g.adrift,
        g.unloadFailed || (swap && !luck.unloaded), g.gaveUp), engine, luck.answer)
  }

  lemma InvalidPath(g: Gpu, engine: Engine, luck: Luck)
    requires !luck.pathValid
    ensures GpuAfter(g, engine, luck) == g
  {
  }

  // ----- and that it is a run of the machine

  /** The steps of one worker that nobody interrupts; those that its luck skips are not enabled. */
  function GpuActs(luck: Luck): seq<Act> {
    [GoodPath, Acquire, Unload(luck.unloaded)] + (if luck.loads then [Load] else []) + [Infer(luck.answer)]
  }

  function AfterActs(luck: Luck): seq<Act> {
    [Save(luck.saved, luck.filtered), Log(luck.logged), Recover(luck.recorded), Remove(luck.removed)]
  }

  function Acts(luck: Luck): seq<Act> {
    if !luck.pathValid then [BadPath(luck.recorded)] else GpuActs(luck) + AfterActs(luck)
  }

  ghost function Alone(s: State, w: nat, acts: seq<Act>): State
    decreases |acts|
  {
    if acts == [] then s else Alone(Apply(s, Work(w, acts[0])), w, acts[1..])
  }

  function Steps(w: nat, acts: seq<Act>): seq<Step> { seq(|acts|, i requires 0 <= i < |acts| => Work(w, acts[i])) }

  lemma {:induction false} AloneIsRun(s: State, w: nat, acts: seq<Act>)
    ensures Alone(s, w, acts) == Run(s, Steps(w, acts))
    decreases |acts|
  {
    hide Apply;
    if acts != [] {
      AloneIsRun(Apply(s, Work(w, acts[0])), w, acts[1..]);
      assert Steps(w, acts) == [Work(w, acts[0])] + Steps(w, acts[1..]);
      RunSplit(s, [Work(w, acts[0])], Steps(w, acts[1..]));
      RunNext(s, [], Work(w, acts[0]));
      assert [] + [Work(w, acts[0])] == [Work(w, acts[0])];
    }
  }

  lemma {:induction false} AloneSplit(s: State, w: nat, a: seq<Act>, b: seq<Act>)
    ensures Alone(s, w, a + b) == Alone(Alone(s, w, a), w, b)
    decreases |a|
  {
    hide Apply;
    if a == [] {
      assert a + b == b;
    } else {
      assert (a + b)[1..] == a[1..] + b;
      AloneSplit(Apply(s, Work(w, a[0])), w, a[1..], b);
    }
  }

  lemma AloneOne(s: State, w: nat, a: Act)
    ensures Alone(s, w, [a]) == Apply(s, Work(w, a))
  {
    hide Apply;
    assert [a][1..] == [];
  }

  lemma AloneNext(s: State, w: nat, acts: seq<Act>, a: Act)
    ensures Alone(s, w, acts + [a]) == Apply(Alone(s, w, acts), Work(w, a))
  {
    hide Apply, Alone;
    AloneSplit(s, w, acts, [a]);
    AloneOne(Alone(s, w, acts), w, a);
  }

  /** w, at the given stage, with the GPU g. */
  function With(s: State, w: nat, k: Worker, stage: Stage, g: Gpu): State
    requires w < |s.workers| && k.Busy?
  {
    s.(workers := s.workers[w := k.(stage := stage)], gpu := g)
  }

  function Swapped(g: Gpu, w: nat, engine: Engine, ok: bool): Gpu {
    if !NeedsUnload(g.current, engine) then g.(lock := Some(w), current := Some(engine))
    else
      g.(lock := Some(w), current := Some(engine), unloadFailed := g.unloadFailed || !ok,
         loaded := if ok then g.loaded - {g.current.value} else g.loaded)
  }

  lemma ToGpu(s: State, w: nat, k: Worker, ok: bool)
    requires w < |s.workers| && s.workers[w] == k && k.In(Claimed) && s.gpu.lock.None?
    ensures Apply(Apply(Apply(s, Work(w, GoodPath)), Work(w, Acquire)), Work(w, Unload(ok))) ==
      With(s, w, k, Inferring, Swapped(s.gpu, w, k.engine, ok))
  {
    hide Apply, SetStatus;
    WorkStep(s, w, GoodPath);
    var s1 := Apply(s, Work(w, GoodPath));
    assert s1 == With(s, w, k, Waiting, s.gpu);
    WorkStep(s1, w, Acquire);
    var s2 := Apply(s1, Work(w, Acquire));
    var g := NextGpu(s.gpu, w, k.engine, Acquire);
    assert s2 == With(s, w, k, if NeedsUnload(s.gpu.current, k.engine) then Unloading else Inferring, g);
    WorkStep(s2, w, Unload(ok));
  }

  lemma FromGpu(s: State, w: nat, k: Worker, g: Gpu, luck: Luck)
    requires w < |s.workers| && k.Busy?
    ensures var t := With(s, w, k, Inferring, g);
      Apply(if luck.loads then Apply(t, Work(w, Load)) else t, Work(w, Infer(luck.answer))) ==
      With(s, w, k, Finishing(luck.answer == Answered),
        Ended(g.(loaded := if luck.loads then g.loaded + {k.engine} else g.loaded), k.engine, luck.answer))
  {
    var t := With(s, w, k, Inferring, g);
    var u := if luck.loads then Apply(t, Work(w, Load)) else t;
    assert u == With(s, w, k, Inferring, g.(loaded := if luck.loads then g.loaded + {k.engine} else g.loaded));
  }

  /** Until the request is answered only the GPU and the worker change. */
  lemma GpuPart(s: State, w: nat, k: Worker, luck: Luck)
    requires w < |s.workers| && s.workers[w] == k && k.In(Claimed) && s.gpu.lock.None? && luck.pathValid
    ensures Alone(s, w, GpuActs(luck))
         == With(s, w, k, Finishing(luck.answer == Answered), GpuAfter(s.gpu, k.engine, luck))
  {
    hide Alone, Apply;
    var first := [GoodPath, Acquire, Unload(luck.unloaded)];
    AloneOne(s, w, GoodPath);
    AloneNext(s, w, [GoodPath], Acquire);
    AloneNext(s, w, [GoodPath, Acquire], Unload(luck.unloaded));
    assert [GoodPath] + [Acquire] == [GoodPath, Acquire];
    assert [GoodPath, Acquire] + [Unload(luck.unloaded)] == first;
    ToGpu(s, w, k, luck.unloaded);
    AloneNext(s, w, first, Load);
    assert first + [] == first;
    AloneNext(s, w, first + (if luck.loads then [Load] else []), Infer(luck.answer));
    FromGpu(s, w, k, Swapped(s.gpu, w, k.engine, luck.unloaded), luck);
  }

  lemma SavePart(s: State, w: nat, k: Worker, luck: Luck)
    requires w < |s.workers| && s.workers[w] == k && k.In(Finishing(luck.answer == Answered))
    ensures Apply(Apply(s, Work(w, Save(luck.saved, luck.filtered))), Work(w, Log(luck.logged))) ==
      With(s, w, k, if luck.saved && luck.logged then Removing else Recovering, s.gpu).(
        rows := if luck.saved then SetStatus(s.rows, k.id, Outcome(luck)) else s.rows,
        unlogged := if luck.saved && !luck.logged then s.unlogged + {k.id} else s.unlogged)
  {
    hide SetStatus, Apply;
    WorkStep(s, w, Save(luck.saved, luck.filtered));
    var t := Apply(s, Work(w, Save(luck.saved, luck.filtered)));
    assert t == With(s, w, k, if luck.saved then Saved else Recovering, s.gpu).(
      rows := if luck.saved then SetStatus(s.rows, k.id, Outcome(luck)) else s.rows);
    WorkStep(t, w, Log(luck.logged));
  }

  lemma EndPart(s: State, w: nat, k: Worker, luck: Luck)
    requires w < |s.workers| && s.workers[w] == k && (k.In(Removing) || k.In(Recovering))
    ensures var t := Apply(Apply(s, Work(w, Recover(luck.recorded))), Work(w, Remove(luck.removed)));
      && t.rows == (if k.In(Recovering) && luck.recorded then SetStatus(s.rows, k.id, Failed) else s.rows)
      && t.files == (if luck.removed then s.files - {k.file} else s.files)
      && t.gpu == s.gpu && t.workers == s.workers[w := Idle]
  {
    hide SetStatus;
    var u := Apply(s, Work(w, Recover(luck.recorded)));
    assert u.workers == s.workers[w := k.(stage := Removing)] && u.gpu == s.gpu && u.files == s.files;
    assert u.rows == (if k.In(Recovering) && luck.recorded then SetStatus(s.rows, k.id, Failed) else s.rows);
    assert u.workers[w := Idle] == s.workers[w := Idle];
  }

  lemma AfterPart(s: State, w: nat, k: Worker, luck: Luck)
    requires w < |s.workers| && s.workers[w] == k && k.In(Finishing(luck.answer == Answered)) && luck.pathValid
    ensures var t := Alone(s, w, AfterActs(luck));
      && t.rows == RowsAfter(s.rows, k.id, luck) && t.files == FilesAfter(s.files, k.file, luck)
      && t.gpu == s.gpu && t.workers == s.workers[w := Idle]
  {
    hide Alone, Apply, SetStatus;
    var save, log, recover := Save(luck.saved, luck.filtered), Log(luck.logged), Recover(luck.recorded);
    AloneOne(s, w, save);
    AloneNext(s, w, [save], log);
    AloneNext(s, w, [save, log], recover);
    AloneNext(s, w, [save, log, recover], Remove(luck.removed));
    assert [save] + [log] == [save, log] && [save, log] + [recover] == [save, log, recover];
    assert [save, log, recover] + [Remove(luck.removed)] == AfterActs(luck);
    SavePart(s, w, k, luck);
    var t := Alone(s, w, [save, log]);
    EndPart(t, w, t.workers[w], luck);
    assert t.workers[w := Idle] == s.workers[w := Idle];
    WrittenTwice(s.rows, k.id, Outcome(luck), Failed);
  }

  /** process_job, with no one else at work in between, is this run of the machine. */
  lemma ProcessJobIsRun(s: State, w: nat, luck: Luck)
    requires w < |s.workers| && s.workers[w].In(Claimed) && s.gpu.lock.None?
    ensures var t, k := Run(s, Steps(w, Acts(luck))), s.workers[w];
      && t.rows == RowsAfter(s.rows, k.id, luck) && t.files == FilesAfter(s.files, k.file, luck)
      && t.gpu == GpuAfter(s.gpu, k.engine, luck) && t.workers == s.workers[w := Idle]
  {
    hide Run, Alone;
    AloneIsRun(s, w, Acts(luck));
    if luck.pathValid {
      hide Apply;
      var k := s.workers[w];
      GpuPart(s, w, k, luck);
      AloneSplit(s, w, GpuActs(luck), AfterActs(luck));
      AfterPart(Alone(s, w, GpuActs(luck)), w, k.(stage := Finishing(luck.answer == Answered)), luck);
    } else {
      AloneOne(s, w, BadPath(luck.recorded));
    }
  }

  // ----- the cleaner as a run of the machine

  function CleanSteps(listing: seq<nat>, now: int, removes: nat -> bool): seq<Step> {
    if listing == [] then [Expire]
    else
      var f := listing[|listing| - 1];
      CleanSteps(listing[..|listing| - 1], now, removes) + [Check(f, now)] + [Sweep(removes(f))]
  }

  lemma OneFile(s: State, f: nat, ok: bool) returns (t: State)
    requires s.cleaner == Resting
    ensures t == Apply(Apply(s, Check(f, s.now)), Sweep(ok))
    ensures t == s.(files := if ok && Orphan(s.rows, s.files, f, s.now) then s.files - {f} else s.files)
  {
    hide IsActive;
    var s1 := Apply(s, Check(f, s.now));
    t := Apply(s1, Sweep(ok));
  }

  lemma CleanedNext(before: map<nat, int>, after: map<nat, int>, rows: map<nat, Job>, listing: seq<nat>, f: nat,
      now: int, removes: nat -> bool)
    requires Cleaned(before, after, rows, listing, now, removes)
    ensures var next := if removes(f) && Orphan(rows, after, f, now) then after - {f} else after;
      Cleaned(before, next, rows, listing + [f], now, removes)
  {
    hide IsActive;
  }

  /** One pass of the cleaner, with no one else at work in between, is this run of the machine. */
  lemma {:induction false} CleanUpIsRun(s: State, listing: seq<nat>, removes: nat -> bool)
    requires s.cleaner == Resting
    ensures var t := Run(s, CleanSteps(listing, s.now, removes));
      && t == s.(rows := Unexpired(s.rows, s.now), files := t.files)
      && Cleaned(s.files, t.files, t.rows, listing, s.now, removes)
  {
    hide Run, Apply, Cleaned, Unexpired, Orphan;
    if listing == [] {
      ExpireFirst(s, removes);
    } else {
      var init, f := listing[..|listing| - 1], listing[|listing| - 1];
      var steps := CleanSteps(init, s.now, removes);
      CleanUpIsRun(s, init, removes);
      var t := Run(s, steps);
      RunNext(s, steps, Check(f, s.now));
      RunNext(s, steps + [Check(f, s.now)], Sweep(removes(f)));
      var u := OneFile(t, f, removes(f));
      CleanedNext(s.files, t.files, t.rows, init, f, s.now, removes);
      assert listing == init + [f];
    }
  }

  lemma ExpireFirst(s: State, removes: nat -> bool)
    ensures var t := Run(s, [Expire]);
      t == s.(rows := Unexpired(s.rows, s.now)) && Cleaned(s.files, t.files, t.rows, [], s.now, removes)
  {
    hide Unexpired;
    assert [Expire][..0] == [];
  }
}
