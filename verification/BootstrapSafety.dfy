/** What a run of the bootstrap promises from any disk, with any failures and a crash at any point, and what
    any number of runs promise together. */
module BootstrapSafety {
  import opened Bootstrap

  // ----- artifacts are only gained

  predicate Grows(d: Disk, e: Disk) {
    d.onnx <= e.onnx && d.align <= e.align && d.deepfilter <= e.deepfilter && (d.pyannote ==> e.pyannote)
  }

  lemma StepGrows(p: Progress, step: Step, fate: Fate, baked: set<string>)
    requires p.Going?
    ensures var q := RunStep(p, step, fate, baked); Grows(p.disk, q.disk) && q.disk.manifest == p.disk.manifest
  {
    hide Calls;
  }

  lemma {:induction false} StepsGrow(p: Progress, steps: seq<Step>, fate: Fate, baked: set<string>)
    requires p.Going?
    ensures var q := RunSteps(p, steps, fate, baked); Grows(p.disk, q.disk) && q.disk.manifest == p.disk.manifest
  {
    hide RunStep;
    if steps != [] {
      var init := steps[..|steps| - 1];
      StepsGrow(p, init, fate, baked);
      var q := RunSteps(p, init, fate, baked);
      if q.Going? { StepGrows(q, steps[|steps| - 1], fate, baked); }
    }
  }

  /** Whatever happens in a run, nothing becomes missing that was not, for this configuration or any other. */
  lemma NothingIsLost(d: Disk, cfg: Config, fate: Fate, baked: set<string>, other: Config)
    ensures Grows(d, Ensure(d, cfg, fate, baked).disk)
    ensures forall a :: a in VerifyCacheArtifacts(other, Ensure(d, cfg, fate, baked).disk) ==>
      a in VerifyCacheArtifacts(other, d)
  {
    hide RunSteps, PlannedSteps;
    StepsGrow(Going(d, cfg, d.pyannote), PlannedSteps(cfg, d), fate, baked);
    MissingShrinks(d, Ensure(d, cfg, fate, baked).disk, other);
  }

  lemma MissingShrinks(d: Disk, e: Disk, cfg: Config)
    requires Grows(d, e)
    ensures forall a :: a in VerifyCacheArtifacts(cfg, e) ==> a in VerifyCacheArtifacts(cfg, d)
  {
    hide Grows, If;
    MissingMeans(cfg, d);
    MissingMeans(cfg, e);
    forall a | a in VerifyCacheArtifacts(cfg, e)
      ensures a in VerifyCacheArtifacts(cfg, d)
    {
      StillThere(d, e, cfg, a);
    }
  }

  predicate Lacks(cfg: Config, d: Disk, a: Artifact) {
    match a
    case Onnx => cfg.model !in d.onnx
    case Align => cfg.alignModel !in d.align
    case DeepFilter => cfg.denoise && cfg.denoiseModel !in d.deepfilter
    case Pyannote => cfg.prefetch && cfg.token && !d.pyannote
  }

  lemma StillThere(d: Disk, e: Disk, cfg: Config, a: Artifact)
    requires Grows(d, e)
    ensures Lacks(cfg, e, a) ==> Lacks(cfg, d, a)
  {
  }

  lemma MissingMeans(cfg: Config, d: Disk)
    ensures forall a :: a in VerifyCacheArtifacts(cfg, d) <==> Lacks(cfg, d, a)
    ensures VerifyCacheArtifacts(cfg, d) == [] <==> forall a :: !Lacks(cfg, d, a)
  {
    var m := VerifyCacheArtifacts(cfg, d);
    var onnx, align := cfg.model !in d.onnx, cfg.alignModel !in d.align;
    var denoise, pyannote := cfg.denoise && cfg.denoiseModel !in d.deepfilter, cfg.prefetch && cfg.token && !d.pyannote;
    ListMembers(onnx, align, denoise, pyannote);
    forall a
      ensures a in m <==> Lacks(cfg, d, a)
    {
      match a case Onnx => case Align => case DeepFilter => case Pyannote =>
    }
    assert Lacks(cfg, d, Onnx) == onnx && Lacks(cfg, d, Align) == align;
    assert Lacks(cfg, d, DeepFilter) == denoise && Lacks(cfg, d, Pyannote) == pyannote;
  }

  // ----- the export has weights to work on

  /** In every run, however it goes, the export is reached only with weights on the volume. */
  lemma ExportHasWeights(d: Disk, cfg: Config, fate: Fate, baked: set<string>, i: nat)
    requires i < |PlannedSteps(cfg, d)| && PlannedSteps(cfg, d)[i] == ExportOnnx
    requires RunSteps(Going(d, cfg, d.pyannote), PlannedSteps(cfg, d)[..i], fate, baked).Going?
    ensures RunSteps(Going(d, cfg, d.pyannote), PlannedSteps(cfg, d)[..i], fate, baked).disk.weights
  {
    var steps, start := PlannedSteps(cfg, d), Going(d, cfg, d.pyannote);
    ExportPlace(cfg, d, i);
    if d.weights {
      NoSteps(start, fate, baked);
      assert steps[..i] == [];
    } else {
      assert steps[..i] == [DownloadPytorch];
      OneStep(start, DownloadPytorch, fate, baked);
    }
  }

  lemma ExportPlace(cfg: Config, d: Disk, i: nat)
    requires i < |PlannedSteps(cfg, d)| && PlannedSteps(cfg, d)[i] == ExportOnnx
    ensures if d.weights then i == 0 else i == 1 && PlannedSteps(cfg, d)[0] == DownloadPytorch
  {
    PlanIsRepair(cfg, d);
    var steps := PlannedSteps(cfg, d);
    if cfg.model !in d.onnx {
      var k := if d.weights then 0 else 1;
      assert steps[k] == ExportOnnx;
    } else {
      NoExport(cfg, d);
      assert false;
    }
  }

  lemma NoExport(cfg: Config, d: Disk)
    requires cfg.model in d.onnx
    ensures ExportOnnx !in PlannedSteps(cfg, d)
  {
    MissingMeans(cfg, d);
    PlanIsRepair(cfg, d);
    assert Repairs(Onnx) == ExportOnnx;
  }

  lemma OneStep(p: Progress, step: Step, fate: Fate, baked: set<string>)
    requires p.Going?
    ensures RunSteps(p, [step], fate, baked) == RunStep(p, step, fate, baked)
  {
    hide RunStep;
    assert [step][..0] == [];
  }

  // ----- what becomes of the weights

  lemma StepKeepsWeights(p: Progress, step: Step, fate: Fate, baked: set<string>)
    requires p.Going? && step != DownloadPytorch && step != ExportOnnx
    ensures RunStep(p, step, fate, baked).disk.weights == p.disk.weights
  {
    hide Calls;
  }

  /** The export's one call succeeds, and pruning is on and leaves nothing behind. */
  predicate Prunes(cfg: Config, fate: Fate) {
    !fate.steps(ExportOnnx).dies && !fate.steps(ExportOnnx).fails(1) && cfg.prune && fate.cleaned
  }

  lemma ExportPrunes(p: Progress, fate: Fate, baked: set<string>)
    requires p.Going? && p.disk.weights
    ensures RunStep(p, ExportOnnx, fate, baked).disk.weights <==> !Prunes(p.cfg, fate)
  {
    assert Calls(1, fate.steps(ExportOnnx).fails) == 1;
  }

  lemma LastStep(p: Progress, steps: seq<Step>, fate: Fate, baked: set<string>)
    requires steps != []
    ensures var q := RunSteps(p, steps[..|steps| - 1], fate, baked);
      RunSteps(p, steps, fate, baked) == if q.Going? then RunStep(q, steps[|steps| - 1], fate, baked) else q
  {
    hide RunStep;
  }

  lemma {:induction false} StepsPrune(p: Progress, steps: seq<Step>, fate: Fate, baked: set<string>)
    requires p.Going? && p.disk.weights && steps != []
    requires DownloadPytorch !in steps && ExportOnnx !in steps[1..]
    ensures RunSteps(p, steps, fate, baked).disk.weights <==> !(steps[0] == ExportOnnx && Prunes(p.cfg, fate))
  {
    hide RunStep, RunSteps, Prunes;
    var init, last := steps[..|steps| - 1], steps[|steps| - 1];
    if init == [] {
      assert steps == [last];
      OneStep(p, last, fate, baked);
      if last == ExportOnnx { ExportPrunes(p, fate, baked); } else { StepKeepsWeights(p, last, fate, baked); }
    } else {
      assert steps[1..] == init[1..] + [last] && last in steps;
      StepsPrune(p, init, fate, baked);
      LastStep(p, steps, fate, baked);
      var q := RunSteps(p, init, fate, baked);
      if q.Going? { StepKeepsWeights(q, last, fate, baked); }
    }
  }

  lemma PlanWithWeights(cfg: Config, d: Disk)
    requires d.weights
    ensures var steps := PlannedSteps(cfg, d);
      && steps != [] && DownloadPytorch !in steps && ExportOnnx !in steps[1..]
      && (steps[0] == ExportOnnx <==> cfg.model !in d.onnx)
  {
    hide PlannedSteps, VerifyCacheArtifacts;
    var steps := PlannedSteps(cfg, d);
    PlanIsRepair(cfg, d);
    MissingMeans(cfg, d);
    assert Repairs(Onnx) == ExportOnnx;
    assert ExportOnnx in steps <==> Lacks(cfg, d, Onnx);
    if i: nat :| i < |steps| && steps[i] == ExportOnnx { ExportPlace(cfg, d, i); }
    NotEmptyPlan(cfg, d);
  }

  lemma NotEmptyPlan(cfg: Config, d: Disk)
    ensures PlannedSteps(cfg, d) != []
  {
  }

  /** Weights that are there go exactly when a run exports the model, its export succeeds, and pruning is on and
      works. */
  lemma WeightsGo(d: Disk, cfg: Config, fate: Fate, baked: set<string>)
    requires d.weights
    ensures !Ensure(d, cfg, fate, baked).disk.weights <==>
      && !cfg.offline && cfg.model !in d.onnx && cfg.prune && fate.cleaned
      && !fate.steps(ExportOnnx).dies && !fate.steps(ExportOnnx).fails(1)
  {
    hide RunSteps, PlannedSteps, VerifyCacheArtifacts;
    PlanWithWeights(cfg, d);
    StepsPrune(Going(d, cfg, d.pyannote), PlannedSteps(cfg, d), fate, baked);
    MissingMeans(cfg, d);
    assert cfg.model !in d.onnx ==> Lacks(cfg, d, Onnx);
  }

  // ----- the configuration in force

  predicate InForce(cfg: Config, now: Config) { now == cfg || now == cfg.(denoise := false) }

  /** A run keeps its configuration but for denoising, and speaks of Pyannote as cached only if it is, or will be
      asked for. */
  predicate Sound(cfg: Config, p: Progress) {
    && (p.Going? || p.Raised? ==> InForce(cfg, p.cfg))
    && (p.Going? && p.pyannote ==> p.disk.pyannote || (cfg.prefetch && cfg.token))
  }

  lemma StepSound(cfg: Config, p: Progress, step: Step, fate: Fate, baked: set<string>)
    requires p.Going? && Sound(cfg, p) && (step == DownloadPyannote ==> cfg.prefetch && cfg.token)
    ensures Sound(cfg, RunStep(p, step, fate, baked))
  {
    hide Calls;
  }

  lemma {:induction false} StepsSound(cfg: Config, p: Progress, steps: seq<Step>, fate: Fate, baked: set<string>)
    requires p.Going? && Sound(cfg, p) && (DownloadPyannote in steps ==> cfg.prefetch && cfg.token)
    ensures Sound(cfg, RunSteps(p, steps, fate, baked))
  {
    hide RunStep, Sound;
    if steps != [] {
      var init := steps[..|steps| - 1];
      StepsSound(cfg, p, init, fate, baked);
      var q := RunSteps(p, init, fate, baked);
      if q.Going? { StepSound(cfg, q, steps[|steps| - 1], fate, baked); }
    }
  }

  lemma PlanSound(d: Disk, cfg: Config, fate: Fate, baked: set<string>)
    ensures Sound(cfg, RunSteps(Going(d, cfg, d.pyannote), PlannedSteps(cfg, d), fate, baked))
  {
    hide RunSteps, PlannedSteps, VerifyCacheArtifacts;
    PlanIsRepair(cfg, d);
    MissingMeans(cfg, d);
    assert Repairs(Pyannote) == DownloadPyannote;
    assert Lacks(cfg, d, Pyannote) ==> cfg.prefetch && cfg.token;
    StepsSound(cfg, Going(d, cfg, d.pyannote), PlannedSteps(cfg, d), fate, baked);
  }

  // ----- a successful run

  /** A healthy run ends with a manifest and nothing missing for the configuration in force. A run that fails or
      crashes, wherever that may be, leaves the old manifest, one that does not parse, or, if it got as far as the
      new one, that with nothing missing for the configuration in force as well. */
  lemma ManifestOnlyWhenComplete(d: Disk, cfg: Config, fate: Fate, baked: set<string>)
    ensures var o := Ensure(d, cfg, fate, baked);
      && (o.Healthy? ==> InForce(cfg, o.cfg) && VerifyCacheArtifacts(o.cfg, o.disk) == [] && ModelsReady(o.cfg, o.disk))
      && (!o.Healthy? ==> !ModelsReady(cfg, d))
      && (!o.Healthy? && o.disk.manifest != d.manifest && o.disk.manifest != Corrupt ==>
            ReadyInForce(cfg, o.disk) && o.disk.manifest.denoiseModel == cfg.denoiseModel)
  {
    hide RunSteps, PlannedSteps;
    if !ModelsReady(cfg, d) {
      var p := RunSteps(Going(d, cfg, d.pyannote), PlannedSteps(cfg, d), fate, baked);
      StepsGrow(Going(d, cfg, d.pyannote), PlannedSteps(cfg, d), fate, baked);
      PlanSound(d, cfg, fate, baked);
      if p.Going? && VerifyCacheArtifacts(p.cfg, p.disk) == [] { MissingMeans(p.cfg, p.disk); WrittenMatches(p, fate); }
    }
  }

  /** Pyannote on the volume is known to be there, or asked for. */
  predicate Flagged(cfg: Config, p: Progress) {
    p.Going? && p.disk.pyannote ==> p.pyannote || cfg.prefetch
  }

  lemma StepFlagged(cfg: Config, p: Progress, step: Step, fate: Fate, baked: set<string>)
    requires p.Going? && Flagged(cfg, p) && (step == DownloadPyannote ==> cfg.prefetch)
    ensures Flagged(cfg, RunStep(p, step, fate, baked))
  {
    hide Calls;
  }

  lemma {:induction false} StepsFlagged(cfg: Config, p: Progress, steps: seq<Step>, fate: Fate, baked: set<string>)
    requires p.Going? && Flagged(cfg, p) && (DownloadPyannote in steps ==> cfg.prefetch)
    ensures Flagged(cfg, RunSteps(p, steps, fate, baked))
  {
    hide RunStep, RunSteps, Flagged;
    if steps == [] {
      NoSteps(p, fate, baked);
    } else {
      var init := steps[..|steps| - 1];
      StepsFlagged(cfg, p, init, fate, baked);
      LastStep(p, steps, fate, baked);
      var q := RunSteps(p, init, fate, baked);
      if q.Going? { StepFlagged(cfg, q, steps[|steps| - 1], fate, baked); }
    }
  }

  /** A manifest that a run writes names the models and choices of its configuration, the denoiser as wanted in the end,
      and Pyannote exactly if it is on the volume. */
  lemma ManifestSays(d: Disk, cfg: Config, fate: Fate, baked: set<string>)
    requires !ModelsReady(cfg, d)
    requires var o := Ensure(d, cfg, fate, baked); o.Healthy? || o.disk.manifest !in {d.manifest, Corrupt}
    ensures var o := Ensure(d, cfg, fate, baked);
      && o.disk.manifest.Written?
      && o.disk.manifest.model == cfg.model && o.disk.manifest.alignModel == cfg.alignModel
      && o.disk.manifest.denoiseModel == cfg.denoiseModel && o.disk.manifest.prefetch == cfg.prefetch
      && o.disk.manifest.pyannote == o.disk.pyannote
      && (!o.Crashed? ==> o.disk.manifest.denoise == o.cfg.denoise)
      && (o.disk.manifest.denoise ==> cfg.denoise)
  {
    hide RunSteps, PlannedSteps, VerifyCacheArtifacts, ModelsReady;
    var start, steps := Going(d, cfg, d.pyannote), PlannedSteps(cfg, d);
    var p := RunSteps(start, steps, fate, baked);
    StepsGrow(start, steps, fate, baked);
    PlanSound(d, cfg, fate, baked);
    PlanIsRepair(cfg, d);
    MissingMeans(cfg, d);
    assert Repairs(Pyannote) == DownloadPyannote;
    assert DownloadPyannote in steps ==> Lacks(cfg, d, Pyannote);
    StepsFlagged(cfg, start, steps, fate, baked);
    MissingMeans(p.cfg, p.disk);
    assert VerifyCacheArtifacts(p.cfg, p.disk) == [] ==> !Lacks(p.cfg, p.disk, Pyannote);
  }

  /** With denoising as configured or, after its download failed, without it. */
  predicate ReadyInForce(cfg: Config, d: Disk) { ModelsReady(cfg, d) || ModelsReady(cfg.(denoise := false), d) }

  lemma WrittenMatches(p: Progress, fate: Fate)
    requires p.Going? && VerifyCacheArtifacts(p.cfg, p.disk) == []
    ensures var o := Finish(p, fate);
      && (o.Healthy? ==> o.cfg == p.cfg && ModelsReady(p.cfg, o.disk))
      && (!o.Healthy? ==> o.disk.manifest in {p.disk.manifest, Corrupt} || ModelsReady(p.cfg, o.disk))
  {
    MissingMeans(p.cfg, p.disk);
    assert !Lacks(p.cfg, p.disk, Pyannote);
    var o := Finish(p, fate);
    assert VerifyCacheArtifacts(p.cfg, o.disk) == VerifyCacheArtifacts(p.cfg, p.disk);
  }

  /** After a healthy run, or one that failed or crashed with its manifest complete, the next start takes the fast
      path, whatever would befall its downloads, unless the denoiser is wanted and not there: then, and only
      then, it plans exactly to fetch it. */
  lemma NextRun(d: Disk, cfg: Config, fate: Fate, baked: set<string>, next: Fate)
    requires var o := Ensure(d, cfg, fate, baked); o.Healthy? || o.disk.manifest !in {d.manifest, Corrupt}
    ensures var e := Ensure(d, cfg, fate, baked).disk;
      if cfg.denoise && cfg.denoiseModel !in e.deepfilter then
        !ModelsReady(cfg, e) && PlannedSteps(cfg, e) == [DownloadDeepfilter, VerifyWheels]
      else ModelsReady(cfg, e) && Ensure(e, cfg, next, baked) == Healthy(e, cfg)
  {
    hide RunSteps, RunStep, VerifyCacheArtifacts, PlannedSteps;
    ManifestOnlyWhenComplete(d, cfg, fate, baked);
    var o := Ensure(d, cfg, fate, baked);
    if o.Healthy? {
      HealthyFor(cfg, o.cfg, o.disk);
    } else {
      HealthyFor(cfg, if ModelsReady(cfg, o.disk) then cfg else cfg.(denoise := false), o.disk);
    }
  }

  lemma HealthyFor(cfg: Config, now: Config, e: Disk)
    requires InForce(cfg, now) && ModelsReady(now, e) && (now == cfg || e.manifest.denoiseModel == cfg.denoiseModel)
    ensures if cfg.denoise && cfg.denoiseModel !in e.deepfilter then
        !ModelsReady(cfg, e) && PlannedSteps(cfg, e) == [DownloadDeepfilter, VerifyWheels]
      else ModelsReady(cfg, e)
  {
    MissingMeans(cfg, e);
    MissingMeans(now, e);
    assert !Lacks(now, e, Onnx) && !Lacks(now, e, Align) && !Lacks(now, e, Pyannote) && !Lacks(now, e, DeepFilter);
  }

  // ----- a run in which all goes well

  predicate GoesWell(cfg: Config, step: Step, luck: Luck, baked: set<string>) {
    && !luck.dies && luck.lands
    && if step == DownloadDeepfilter && cfg.denoiseModel in baked then !luck.fails(1)
      else !luck.fails(Calls(Attempts(cfg, step), luck.fails))
  }

  /** What the step was for. */
  predicate Done(cfg: Config, d: Disk, step: Step) {
    match step
    case DownloadPytorch => true
    case ExportOnnx => cfg.model in d.onnx
    case DownloadAlign => cfg.alignModel in d.align
    case DownloadDeepfilter => cfg.denoiseModel in d.deepfilter
    case DownloadPyannote => d.pyannote
    case VerifyWheels => true
  }

  lemma StepDone(p: Progress, step: Step, fate: Fate, baked: set<string>)
    requires p.Going? && GoesWell(p.cfg, step, fate.steps(step), baked)
    ensures var q := RunStep(p, step, fate, baked);
      q.Going? && q.cfg == p.cfg && Done(p.cfg, q.disk, step)
  {
    hide Calls;
  }

  lemma {:induction false} StepsDone(p: Progress, steps: seq<Step>, fate: Fate, baked: set<string>)
    requires p.Going? && forall step :: step in steps ==> GoesWell(p.cfg, step, fate.steps(step), baked)
    ensures var q := RunSteps(p, steps, fate, baked);
      q.Going? && q.cfg == p.cfg && forall step :: step in steps ==> Done(p.cfg, q.disk, step)
  {
    hide RunStep, Done, GoesWell;
    if steps != [] {
      var init, last := steps[..|steps| - 1], steps[|steps| - 1];
      assert steps == init + [last];
      StepsDone(p, init, fate, baked);
      var q := RunSteps(p, init, fate, baked);
      StepDone(q, last, fate, baked);
      StepGrows(q, last, fate, baked);
      forall step | step in init
        ensures Done(p.cfg, RunStep(q, last, fate, baked).disk, step)
      {
        DoneStays(p.cfg, q.disk, RunStep(q, last, fate, baked).disk, step);
      }
    }
  }

  lemma DoneStays(cfg: Config, d: Disk, e: Disk, step: Step)
    requires Grows(d, e) && Done(cfg, d, step)
    ensures Done(cfg, e, step)
  {
  }

  /** From any disk, a corrupt manifest included, one run in which the planned steps go well makes the cache ready. */
  lemma OneGoodRun(d: Disk, cfg: Config, fate: Fate, baked: set<string>)
    requires !cfg.offline && fate.write == Completes
    requires forall step :: step in PlannedSteps(cfg, d) ==> GoesWell(cfg, step, fate.steps(step), baked)
    ensures var o := Ensure(d, cfg, fate, baked); o.Healthy? && ModelsReady(cfg, o.disk)
  {
    hide RunSteps, PlannedSteps, GoesWell;
    if !ModelsReady(cfg, d) {
      var start, steps := Going(d, cfg, d.pyannote), PlannedSteps(cfg, d);
      StepsDone(start, steps, fate, baked);
      StepsGrow(start, steps, fate, baked);
      var q := RunSteps(start, steps, fate, baked);
      AllRepaired(cfg, d, q.disk);
      WrittenMatches(q, fate);
    }
  }

  lemma AllRepaired(cfg: Config, d: Disk, e: Disk)
    requires Grows(d, e) && forall step :: step in PlannedSteps(cfg, d) ==> Done(cfg, e, step)
    ensures VerifyCacheArtifacts(cfg, e) == []
  {
    hide PlannedSteps, VerifyCacheArtifacts;
    MissingShrinks(d, e, cfg);
    MissingMeans(cfg, e);
    PlanIsRepair(cfg, d);
    forall a
      ensures !Lacks(cfg, e, a)
    {
      if a in VerifyCacheArtifacts(cfg, d) { assert Done(cfg, e, Repairs(a)); }
    }
  }

  // ----- any number of runs

  /** One start of the container. */
  datatype Attempt = Attempt(cfg: Config, fate: Fate)

  function Runs(d: Disk, attempts: seq<Attempt>, baked: set<string>): Disk {
    if attempts == [] then d
    else
      var last := attempts[|attempts| - 1];
      Ensure(Runs(d, attempts[..|attempts| - 1], baked), last.cfg, last.fate, baked).disk
  }

  /** A manifest that parses speaks of artifacts that are there. */
  predicate Honest(d: Disk) {
    d.manifest.Written? ==>
      && d.manifest.model in d.onnx && d.manifest.alignModel in d.align
      && (d.manifest.denoise ==> d.manifest.denoiseModel in d.deepfilter)
      && (d.manifest.pyannote ==> d.pyannote)
  }

  lemma RunHonest(d: Disk, cfg: Config, fate: Fate, baked: set<string>)
    requires Honest(d)
    ensures Honest(Ensure(d, cfg, fate, baked).disk)
  {
    hide RunSteps, PlannedSteps;
    if !ModelsReady(cfg, d) && !cfg.offline {
      var p := RunSteps(Going(d, cfg, d.pyannote), PlannedSteps(cfg, d), fate, baked);
      StepsGrow(Going(d, cfg, d.pyannote), PlannedSteps(cfg, d), fate, baked);
      PlanSound(d, cfg, fate, baked);
      if p.Going? { FinishHonest(p, cfg, fate); }
    }
  }

  lemma FinishHonest(p: Progress, cfg: Config, fate: Fate)
    requires p.Going? && Sound(cfg, p) && Honest(p.disk)
    ensures Honest(Finish(p, fate).disk)
  {
    MissingMeans(p.cfg, p.disk);
    if VerifyCacheArtifacts(p.cfg, p.disk) == [] {
      assert !Lacks(p.cfg, p.disk, Onnx) && !Lacks(p.cfg, p.disk, Align);
      assert !Lacks(p.cfg, p.disk, DeepFilter) && !Lacks(p.cfg, p.disk, Pyannote);
    }
  }

  /** Over any starts, with any configurations, failures and crashes, the manifest never speaks of what is not there. */
  lemma {:induction false} RunsHonest(d: Disk, attempts: seq<Attempt>, baked: set<string>)
    requires Honest(d)
    ensures Honest(Runs(d, attempts, baked))
  {
    hide Honest, Ensure;
    if attempts != [] {
      var last := attempts[|attempts| - 1];
      RunsHonest(d, attempts[..|attempts| - 1], baked);
      RunHonest(Runs(d, attempts[..|attempts| - 1], baked), last.cfg, last.fate, baked);
    }
  }

  /** And nothing that was on the volume is ever missing again, for any configuration. */
  lemma RunsOnlyRepair(d: Disk, before: seq<Attempt>, after: seq<Attempt>, baked: set<string>, cfg: Config)
    ensures forall a :: a in VerifyCacheArtifacts(cfg, Runs(d, before + after, baked)) ==>
      a in VerifyCacheArtifacts(cfg, Runs(d, before, baked))
  {
    hide Runs, Grows;
    RunsSplit(d, before, after, baked);
    RunsGrow(Runs(d, before, baked), after, baked);
    MissingShrinks(Runs(d, before, baked), Runs(d, before + after, baked), cfg);
  }

  lemma {:induction false} RunsSplit(d: Disk, a: seq<Attempt>, b: seq<Attempt>, baked: set<string>)
    ensures Runs(d, a + b, baked) == Runs(Runs(d, a, baked), b, baked)
  {
    hide Ensure;
    if b == [] {
      assert a + b == a;
    } else {
      assert (a + b)[..|a + b| - 1] == a + b[..|b| - 1];
      RunsSplit(d, a, b[..|b| - 1], baked);
    }
  }

  lemma {:induction false} RunsGrow(d: Disk, attempts: seq<Attempt>, baked: set<string>)
    ensures Grows(d, Runs(d, attempts, baked))
  {
    hide Ensure;
    if attempts != [] {
      var last := attempts[|attempts| - 1];
      RunsGrow(d, attempts[..|attempts| - 1], baked);
      NothingIsLost(Runs(d, attempts[..|attempts| - 1], baked), last.cfg, last.fate, baked, last.cfg);
    }
  }

  // ----- offline

  /** Any number of offline starts, with any configurations and whatever befalls them, leave the disk as it was.
      So a start is healthy then exactly when it would have been at first. */
  lemma {:induction false} OfflineStarts(d: Disk, attempts: seq<Attempt>, baked: set<string>)
    requires forall a :: a in attempts ==> a.cfg.offline
    ensures Runs(d, attempts, baked) == d
    ensures forall a :: a in attempts ==>
      (Ensure(Runs(d, attempts, baked), a.cfg, a.fate, baked).Healthy? <==> ModelsReady(a.cfg, d))
  {
    hide ModelsReady;
    if attempts != [] {
      OfflineStarts(d, attempts[..|attempts| - 1], baked);
    }
  }

  // ----- when nothing is done, and how often a step is tried

  /** A start that may not use the network is healthy exactly when a manifest was written for the same models, the same
      choice about Pyannote and, if denoising is wanted, the same denoiser, and nothing is missing. */
  lemma OfflineHealthy(d: Disk, cfg: Config, fate: Fate, baked: set<string>)
    requires cfg.offline
    ensures Ensure(d, cfg, fate, baked).disk == d
    ensures Ensure(d, cfg, fate, baked).Healthy? <==>
      && d.manifest.Written? && d.manifest.model == cfg.model && d.manifest.alignModel == cfg.alignModel
      && d.manifest.prefetch == cfg.prefetch
      && (cfg.denoise ==> d.manifest.denoiseModel == cfg.denoiseModel)
      && cfg.model in d.onnx && cfg.alignModel in d.align
      && (cfg.denoise ==> cfg.denoiseModel in d.deepfilter)
      && (cfg.prefetch && cfg.token ==> d.pyannote)
  {
    hide VerifyCacheArtifacts;
    MissingMeans(cfg, d);
    if d.manifest.Written? {
      assert VerifyCacheArtifacts(cfg, d) == [] <==>
        !Lacks(cfg, d, Onnx) && !Lacks(cfg, d, Align) && !Lacks(cfg, d, DeepFilter) && !Lacks(cfg, d, Pyannote);
    }
  }

  /** A download goes on to the next step exactly when one of its tries, as many as configured and at least one, does
      not fail; the denoiser's goes on in any case, and if all tries fail without denoising. The export and the wheel
      check are tried once. */
  lemma Tried(p: Progress, step: Step, fate: Fate, baked: set<string>)
    requires p.Going? && !fate.steps(step).dies
    requires step == DownloadDeepfilter ==> p.cfg.denoiseModel !in baked
    ensures var q := RunStep(p, step, fate, baked);
      var most := if step == ExportOnnx || step == VerifyWheels || p.cfg.attempts < 1 then 1 else p.cfg.attempts;
      var ok := exists k: nat :: 1 <= k <= most && !fate.steps(step).fails(k);
      if ok then q.Going? && q.cfg == p.cfg
      else if step == DownloadDeepfilter then q.Going? && q.cfg == p.cfg.(denoise := false)
      else q.Raised? && q.cfg == p.cfg
  {
    hide Landed;
    var fails := fate.steps(step).fails;
    var n := Calls(Attempts(p.cfg, step), fails);
    if !fails(n) { assert 1 <= n; }
  }
}
