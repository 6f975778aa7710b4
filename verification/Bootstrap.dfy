/** The model cache: a restartable plan of downloads over a disk that failures and crashes leave in any state. */
module Bootstrap {
  import opened Words

  datatype Config = Config(model: string, alignModel: string, denoise: bool, denoiseModel: string, prefetch: bool,
    token: bool, offline: bool, prune: bool, attempts: int)

  /** manifest.json; a write that is cut short leaves a file that does not parse. */
  datatype Manifest = Absent | Corrupt
    | Written(model: string, alignModel: string, denoise: bool, denoiseModel: string, prefetch: bool, pyannote: bool)

  /** What is on the volume: the models whose ONNX files, alignment files and denoiser files are there, ... */
  datatype Disk = Disk(onnx: set<string>, weights: bool, align: set<string>, deepfilter: set<string>, pyannote: bool,
    manifest: Manifest)

  datatype Artifact = Onnx | Align | DeepFilter | Pyannote
  datatype Step = DownloadPytorch | ExportOnnx | DownloadAlign | DownloadDeepfilter | DownloadPyannote | VerifyWheels

  // ----- predicates over the disk

  function If<T>(b: bool, x: T): seq<T> { if b then [x] else [] }

  function VerifyCacheArtifacts(cfg: Config, d: Disk): seq<Artifact> {
    If(cfg.model !in d.onnx, Onnx)
    + If(cfg.alignModel !in d.align, Align)
    + If(cfg.denoise && cfg.denoiseModel !in d.deepfilter, DeepFilter)
    + If(cfg.prefetch && cfg.token && !d.pyannote, Pyannote)
  }

  predicate ManifestMatches(cfg: Config, d: Disk)
    requires d.manifest.Written?
  {
    var m := d.manifest;
    && m.model == cfg.model && m.alignModel == cfg.alignModel && m.prefetch == cfg.prefetch
    && (cfg.denoise ==> m.denoiseModel == cfg.denoiseModel)
    && !(cfg.prefetch && !m.pyannote && cfg.token && !d.pyannote)
  }

  predicate ModelsReady(cfg: Config, d: Disk) {
    d.manifest.Written? && ManifestMatches(cfg, d) && VerifyCacheArtifacts(cfg, d) == []
  }

  function PlannedSteps(cfg: Config, d: Disk): seq<Step> {
    If(cfg.model !in d.onnx && !d.weights, DownloadPytorch)
    + If(cfg.model !in d.onnx, ExportOnnx)
    + If(cfg.alignModel !in d.align, DownloadAlign)
    + If(cfg.denoise && cfg.denoiseModel !in d.deepfilter, DownloadDeepfilter)
    + If(cfg.prefetch && cfg.token && !d.pyannote, DownloadPyannote)
    + [VerifyWheels]
  }

  function Repairs(a: Artifact): Step {
    match a
    case Onnx => ExportOnnx
    case Align => DownloadAlign
    case DeepFilter => DownloadDeepfilter
    case Pyannote => DownloadPyannote
  }

  /** The plan repairs what is missing and nothing else; it fetches weights only to export them, when there are none. */
  lemma PlanIsRepair(cfg: Config, d: Disk)
    ensures PlannedSteps(cfg, d) == [VerifyWheels] <==> VerifyCacheArtifacts(cfg, d) == []
    ensures forall a :: a in VerifyCacheArtifacts(cfg, d) <==> Repairs(a) in PlannedSteps(cfg, d)
    ensures DownloadPytorch in PlannedSteps(cfg, d) <==> Onnx in VerifyCacheArtifacts(cfg, d) && !d.weights
    ensures Distinct(PlannedSteps(cfg, d))
  {
    var onnx, align := cfg.model !in d.onnx, cfg.alignModel !in d.align;
    var denoise, pyannote := cfg.denoise && cfg.denoiseModel !in d.deepfilter, cfg.prefetch && cfg.token && !d.pyannote;
    hide If;
    PlanMembers(onnx && !d.weights, onnx, align, denoise, pyannote);
    PlanOrder(onnx && !d.weights, onnx, align, denoise, pyannote);
    ListMembers(onnx, align, denoise, pyannote);
    forall a
      ensures a in VerifyCacheArtifacts(cfg, d) <==> Repairs(a) in PlannedSteps(cfg, d)
    {
      match a case Onnx => case Align => case DeepFilter => case Pyannote =>
    }
  }

  lemma PlanMembers(weights: bool, onnx: bool, align: bool, denoise: bool, pyannote: bool)
    ensures var p := If(weights, DownloadPytorch) + If(onnx, ExportOnnx) + If(align, DownloadAlign)
        + If(denoise, DownloadDeepfilter) + If(pyannote, DownloadPyannote) + [VerifyWheels];
      && (DownloadPytorch in p <==> weights) && (ExportOnnx in p <==> onnx) && (DownloadAlign in p <==> align)
      && (DownloadDeepfilter in p <==> denoise) && (DownloadPyannote in p <==> pyannote)
      && (|p| == 1 <==> !weights && !onnx && !align && !denoise && !pyannote) && p[|p| - 1] == VerifyWheels
  {
    hide If;
    IfMembers(weights, DownloadPytorch);
    IfMembers(onnx, ExportOnnx);
    IfMembers(align, DownloadAlign);
    IfMembers(denoise, DownloadDeepfilter);
    IfMembers(pyannote, DownloadPyannote);
  }

  lemma IfMembers<T>(b: bool, x: T)
    ensures |If(b, x)| == if b then 1 else 0
    ensures forall y :: y in If(b, x) <==> b && y == x
  {
  }

  lemma PlanOrder(weights: bool, onnx: bool, align: bool, denoise: bool, pyannote: bool)
    ensures Distinct(If(weights, DownloadPytorch) + If(onnx, ExportOnnx) + If(align, DownloadAlign)
        + If(denoise, DownloadDeepfilter) + If(pyannote, DownloadPyannote) + [VerifyWheels])
  {
    DistinctOne(If(weights, DownloadPytorch), onnx, ExportOnnx);
    DistinctOne(If(weights, DownloadPytorch) + If(onnx, ExportOnnx), align, DownloadAlign);
    var p := If(weights, DownloadPytorch) + If(onnx, ExportOnnx) + If(align, DownloadAlign);
    DistinctOne(p, denoise, DownloadDeepfilter);
    DistinctOne(p + If(denoise, DownloadDeepfilter), pyannote, DownloadPyannote);
    DistinctOne(p + If(denoise, DownloadDeepfilter) + If(pyannote, DownloadPyannote), true, VerifyWheels);
  }

  lemma DistinctOne<T>(s: seq<T>, b: bool, x: T)
    requires Distinct(s) && x !in s
    ensures Distinct(s + If(b, x))
  {
  }

  lemma ListMembers(onnx: bool, align: bool, denoise: bool, pyannote: bool)
    ensures var m := If(onnx, Onnx) + If(align, Align) + If(denoise, DeepFilter) + If(pyannote, Pyannote);
      && (m == [] <==> !onnx && !align && !denoise && !pyannote)
      && (Onnx in m <==> onnx) && (Align in m <==> align)
      && (DeepFilter in m <==> denoise) && (Pyannote in m <==> pyannote)
  {
  }

  // ----- retries

  /** The calls made by _retry when call k raises exactly if fails(k): up to the first that does not, at least one. */
  function Calls(attempts: int, fails: nat -> bool): (n: nat)
    ensures 1 <= n <= if attempts < 1 then 1 else attempts
    ensures forall k: nat :: 1 <= k < n ==> fails(k)
    ensures fails(n) ==> n == if attempts < 1 then 1 else attempts
  {
    CallsFrom(1, if attempts < 1 then 1 else attempts, fails)
  }

  function CallsFrom(k: nat, attempts: nat, fails: nat -> bool): (n: nat)
    requires 1 <= k <= attempts
    ensures k <= n <= attempts
    ensures forall i: nat :: k <= i < n ==> fails(i)
    ensures fails(n) ==> n == attempts
    decreases attempts - k
  {
    if fails(k) && k < attempts then CallsFrom(k + 1, attempts, fails) else k
  }

  function Pow2(n: nat): nat { if n == 0 then 1 else 2 * Pow2(n - 1) }

  /** Success and the seconds slept, in units of the base delay, doubling from one call to the next. */
  method Retry(attempts: int, fails: nat -> bool) returns (ok: bool, slept: nat)
    ensures ok <==> !fails(Calls(attempts, fails))
    ensures slept == Pow2(Calls(attempts, fails) - 1) - 1
  {
    var most := if attempts < 1 then 1 else attempts;
    var attempt: nat, delay: nat := 1, 1;
    slept := 0;
    while fails(attempt) && attempt < most
      invariant 1 <= attempt <= most
      invariant Calls(attempts, fails) == CallsFrom(attempt, most, fails)
      invariant delay == Pow2(attempt - 1) && slept == delay - 1
      decreases most - attempt
    {
      slept := slept + delay;
      delay := 2 * delay;
      attempt := attempt + 1;
    }
    ok := !fails(attempt);
  }

  // ----- one run

  /** How a step turns out: the process dies in it, or its calls fail as given; lands says whether its artifact
      is on the volume afterwards, which failing and dying do not exclude. */
  datatype Luck = Luck(dies: bool, fails: nat -> bool, lands: bool)
  /** Writing the manifest, up to the end of the run: it completes, or a failure or the end of the process leaves
      the old file, one that is cut off, or the whole new one. */
  datatype Remains = OldFile | CutFile | NewFile
  datatype Write = Completes | Raises(remains: Remains) | Dies(remains: Remains)

  /** cleaned: pruning the weights left no file behind. */
  datatype Fate = Fate(steps: Step -> Luck, cleaned: bool, write: Write)

  datatype Progress =
    | Going(disk: Disk, cfg: Config, pyannote: bool)
    | Raised(disk: Disk, cfg: Config)
    | Died(disk: Disk)

  /** What a step leaves on the volume. Artifacts come by name; none is taken away. */
  function Landed(d: Disk, cfg: Config, step: Step): Disk {
    match step
    case DownloadPytorch => d.(weights := true)
    case ExportOnnx => d.(onnx := d.onnx + {cfg.model})
    case DownloadAlign => d.(align := d.align + {cfg.alignModel})
    case DownloadDeepfilter => d.(deepfilter := d.deepfilter + {cfg.denoiseModel})
    case DownloadPyannote => d.(pyannote := true)
    case VerifyWheels => d
  }

  function After(d: Disk, cfg: Config, step: Step, lands: bool): Disk { if lands then Landed(d, cfg, step) else d }

  /** Loading the weights puts them on the volume; of the other steps success promises no artifact. */
  function Lands(step: Step, luck: Luck, ok: bool): bool { luck.lands || (step == DownloadPytorch && ok) }

  function Attempts(cfg: Config, step: Step): int {
    if step == ExportOnnx || step == VerifyWheels then 1 else cfg.attempts
  }

  function RunStep(p: Progress, step: Step, fate: Fate, baked: set<string>): Progress
    requires p.Going?
  {
    var cfg, luck := p.cfg, fate.steps(step);
    if luck.dies then Died(After(p.disk, cfg, step, luck.lands))
    else if step == DownloadDeepfilter && cfg.denoiseModel in baked then
      // copied from the image; a failing copy is not caught
      if luck.fails(1) then Raised(After(p.disk, cfg, step, luck.lands), cfg)
      else Going(Landed(p.disk, cfg, step), cfg, p.pyannote)
    else
      var ok := !luck.fails(Calls(Attempts(cfg, step), luck.fails));
      var d := After(p.disk, cfg, step, Lands(step, luck, ok));
      if !ok then
        if step == DownloadDeepfilter then Going(d, cfg.(denoise := false), p.pyannote) else Raised(d, cfg)
      else if step == ExportOnnx && cfg.prune && fate.cleaned then Going(d.(weights := false), cfg, p.pyannote)
      else Going(d, cfg, if step == DownloadPyannote then cfg.token else p.pyannote)
  }

  function RunSteps(p: Progress, steps: seq<Step>, fate: Fate, baked: set<string>): Progress {
    if steps == [] then p
    else
      var q := RunSteps(p, steps[..|steps| - 1], fate, baked);
      if q.Going? then RunStep(q, steps[|steps| - 1], fate, baked) else q
  }

  datatype Outcome = Healthy(disk: Disk, cfg: Config) | Failed(disk: Disk, cfg: Config) | Crashed(disk: Disk)

  function ManifestOf(cfg: Config, pyannote: bool): Manifest {
    Written(cfg.model, cfg.alignModel, cfg.denoise, cfg.denoiseModel, cfg.prefetch, pyannote)
  }

  function Finish(p: Progress, fate: Fate): Outcome {
    match p
    case Raised(d, cfg) => Failed(d, cfg)
    case Died(d) => Crashed(d)
    case Going(d, cfg, pyannote) =>
      if VerifyCacheArtifacts(cfg, d) != [] then Failed(d, cfg)
      else
        var m := ManifestOf(cfg, if cfg.prefetch && !pyannote then d.pyannote else pyannote);
        if fate.write == Completes then Healthy(d.(manifest := m), cfg)
        else
          var e := d.(manifest := Remaining(d.manifest, m, fate.write.remains));
          if fate.write.Raises? then Failed(e, cfg) else Crashed(e)
  }

  function Remaining(before: Manifest, after: Manifest, r: Remains): Manifest {
    match r case OldFile => before case CutFile => Corrupt case NewFile => after
  }

  function Ensure(d: Disk, cfg: Config, fate: Fate, baked: set<string>): Outcome {
    if ModelsReady(cfg, d) then Healthy(d, cfg)
    else if cfg.offline then Failed(d, cfg)
    else Finish(RunSteps(Going(d, cfg, d.pyannote), PlannedSteps(cfg, d), fate, baked), fate)
  }

  // ----- the code

  datatype Status = Bootstrapping | HealthyStatus | FailedStatus

  function StatusOf(o: Outcome): Status {
    match o
    case Healthy(_, _) => HealthyStatus
    case Failed(_, _) => FailedStatus
    case Crashed(_) => Bootstrapping
  }

  class Service {
    const baked: set<string>
    var disk: Disk
    var offlineEnv: bool
    var status: Status
    var missing: seq<Artifact>

    constructor (disk: Disk, baked: set<string>)
      ensures this.disk == disk && this.baked == baked && status == Bootstrapping && !offlineEnv && missing == []
    {
      this.disk, this.baked := disk, baked;
      offlineEnv, status, missing := false, Bootstrapping, [];
    }

    /** Whether the service was up before does not matter: what a run does depends on the disk alone. A healthy run
        declares itself so and switches the network off; a run that had to work leaves it on if it fails or
        crashes, and one that is refused offline leaves the switch as it was. */
    method EnsureModels(config: Config, fate: Fate) returns (outcome: Outcome)
      modifies this
      ensures outcome == Ensure(old(disk), config, fate, baked) && disk == outcome.disk
      ensures status == StatusOf(outcome)
      ensures offlineEnv == if outcome.Healthy? then true else if config.offline then old(offlineEnv) else false
      ensures outcome.Healthy? ==> missing == []
      ensures outcome.Failed? ==> missing == VerifyCacheArtifacts(outcome.cfg, disk)
    {
      var cfg := config;
      status := Bootstrapping;
      if ModelsReady(cfg, disk) {
        offlineEnv, status, missing := true, HealthyStatus, [];
        return Healthy(disk, cfg);
      }
      if cfg.offline {
        status, missing := FailedStatus, VerifyCacheArtifacts(cfg, disk);
        return Failed(disk, cfg);
      }
      offlineEnv := false;
      var p := Execute(PlannedSteps(cfg, disk), cfg, fate);
      outcome := Complete(p, fate);
    }

    /** The loop over the planned steps; an exception, or the end of the process, leaves it. */
    method Execute(steps: seq<Step>, cfg: Config, fate: Fate) returns (p: Progress)
      modifies this`disk
      ensures p == RunSteps(Going(old(disk), cfg, old(disk).pyannote), steps, fate, baked) && disk == p.disk
    {
      hide RunStep, RunSteps;
      p := Going(disk, cfg, disk.pyannote);
      ghost var start := p;
      NoSteps(start, fate, baked);
      var i := 0;
      while i < |steps| && p.Going?
        invariant 0 <= i <= |steps| && disk == p.disk
        invariant p == RunSteps(start, steps[..i], fate, baked)
        decreases |steps| - i
      {
        NextStep(start, steps, i, fate, baked);
        p := Perform(p, steps[i], fate);
        i := i + 1;
      }
      if p.Going? { assert steps[..i] == steps; } else { Stopped(start, steps, i, fate, baked); }
    }

    method Perform(p: Progress, step: Step, fate: Fate) returns (q: Progress)
      requires p.Going? && disk == p.disk
      modifies this`disk
      ensures q == RunStep(p, step, fate, baked) && disk == q.disk
    {
      var cfg, luck := p.cfg, fate.steps(step);
      if luck.dies {
        disk := After(disk, cfg, step, luck.lands);
        return Died(disk);
      }
      if step == DownloadDeepfilter && cfg.denoiseModel in baked {
        if luck.fails(1) {
          disk := After(disk, cfg, step, luck.lands);
          return Raised(disk, cfg);
        }
        disk := Landed(disk, cfg, step);
        return Going(disk, cfg, p.pyannote);
      }
      var ok, _ := Retry(Attempts(cfg, step), luck.fails);
      disk := After(disk, cfg, step, Lands(step, luck, ok));
      if !ok {
        if step != DownloadDeepfilter { return Raised(disk, cfg); }
        return Going(disk, cfg.(denoise := false), p.pyannote);
      }
      var pyannote := p.pyannote;
      if step == ExportOnnx && cfg.prune && fate.cleaned { disk := disk.(weights := false); }
      if step == DownloadPyannote { pyannote := cfg.token; }
      q := Going(disk, cfg, pyannote);
    }

    method Complete(p: Progress, fate: Fate) returns (outcome: Outcome)
      requires disk == p.disk && status == Bootstrapping
      modifies this
      ensures outcome == Finish(p, fate) && disk == outcome.disk
      ensures status == StatusOf(outcome)
      ensures offlineEnv == if outcome.Healthy? then true else old(offlineEnv)
      ensures outcome.Healthy? ==> missing == []
      ensures outcome.Failed? ==> missing == VerifyCacheArtifacts(outcome.cfg, disk)
    {
      if p.Died? { return Crashed(disk); }
      if p.Raised? || VerifyCacheArtifacts(p.cfg, disk) != [] {
        status, missing := FailedStatus, VerifyCacheArtifacts(p.cfg, disk);
        return Failed(disk, p.cfg);
      }
      var pyannote := p.pyannote;
      if p.cfg.prefetch && !pyannote { pyannote := disk.pyannote; }
      var m := ManifestOf(p.cfg, pyannote);
      if !fate.write.Completes? {
        disk := disk.(manifest := Remaining(disk.manifest, m, fate.write.remains));
        if fate.write.Dies? { return Crashed(disk); }
        status, missing := FailedStatus, VerifyCacheArtifacts(p.cfg, disk);
        return Failed(disk, p.cfg);
      }
      disk := disk.(manifest := m);
      offlineEnv, status, missing := true, HealthyStatus, [];
      outcome := Healthy(disk, p.cfg);
    }
  }

  lemma NoSteps(p: Progress, fate: Fate, baked: set<string>)
    ensures RunSteps(p, [], fate, baked) == p
  {
  }

  lemma NextStep(p: Progress, steps: seq<Step>, i: nat, fate: Fate, baked: set<string>)
    requires i < |steps| && RunSteps(p, steps[..i], fate, baked).Going?
    ensures RunSteps(p, steps[..i + 1], fate, baked) ==
      RunStep(RunSteps(p, steps[..i], fate, baked), steps[i], fate, baked)
  {
    hide RunStep;
    assert steps[..i + 1][..i] == steps[..i];
  }

  lemma {:induction false} Stopped(p: Progress, steps: seq<Step>, i: nat, fate: Fate, baked: set<string>)
    requires i <= |steps| && !RunSteps(p, steps[..i], fate, baked).Going?
    ensures RunSteps(p, steps, fate, baked) == RunSteps(p, steps[..i], fate, baked)
    decreases |steps|
  {
    if i == |steps| {
      assert steps[..i] == steps;
    } else {
      assert steps[..|steps| - 1][..i] == steps[..i];
      Stopped(p, steps[..|steps| - 1], i, fate, baked);
    }
  }
}
