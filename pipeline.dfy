/**
 * What `go()` does, as functions of the configuration, the ledger text, the
 * steps taken so far and an environment that answers each shell command with
 * its stdout. One project is taken through eligibility, staging, publishing
 * and finalizing; a run takes the discovered projects one after the other
 * until one of them raises.
 */
module Pipeline {
  import opened Text
  import opened Interpret

  /** The settings the script takes from its configuration module. */
  datatype Config = Config(
    testing: bool,
    analysisFolder: string,
    analysisTestFolder: string,
    copyLocation: string,
    fastqLocationsFolder: string,
    watchFolder: string)

  /** The Archer analysis directory: the test folder when testing. */
  function AnalysisRoot(cfg: Config): string {
    if cfg.testing then cfg.analysisTestFolder else cfg.analysisFolder
  }

  /** `"%s/%s" % (root, id)`: the project folder on the Archer platform. */
  function ProjectDir(cfg: Config, id: string): string {
    AnalysisRoot(cfg) + "/" + id
  }

  /** `os.path.join(a, b)` for two components. */
  function PathJoin(a: string, b: string): string {
    if StartsWith(b, "/") then b
    else if a == [] || a[|a| - 1] == '/' then a + b
    else a + "/" + b
  }

  /** `"%s/%s_fastq_loc.txt" % (fastq_locations_folder, id)`: the manifest file. */
  function ManifestPath(cfg: Config, id: string): string {
    cfg.fastqLocationsFolder + "/" + id + "_fastq_loc.txt"
  }

  /** The glob prefix of the loose fastqs `cleanup_archer_fastqs` deletes. */
  function PickedUpFastqs(cfg: Config, adx: string): string {
    cfg.watchFolder + "/picked_up_files/" + adx
  }

  /** One command the script runs, or its one write to the ledger file. */
  datatype Step =
    | ListAnalysis(dir: string)                           // ls <analysis root>
    | ListProject(dir: string)                            // ls <project folder>
    | CaptureManifest(dir: string, manifest: string)      // ls -l <project folder> > <manifest>; echo $?
    | Rsync(source: string, dest: string)                 // rsync -rt <source> <dest>; echo $?
    | Tar(workDir: string, archive: string, member: string) // cd <workDir>; tar -czf <archive> <member> 2>&1
    | FindProject(namePart: string)                       // dx find projects --name='*<namePart>*'
    | Upload(file: string, project: string)               // ua --project <project> <file>
    | EmptyProjectFolder(dir: string)                     // rm -r <dir>/*
    | DeleteFastqs(globPrefix: string)                    // rm <globPrefix>*
    | AppendLedger(id: string)                            // write "<id>\n" to the ledger file
    | CleanServer(folder: string, archive: string, manifest: string) // rm -r; rm; rm; echo $?

  /** The files `cleanup_genomics_server` removes for a project. */
  function ServerCleanup(cfg: Config, id: string): Step {
    CleanServer(PathJoin(cfg.copyLocation, id),
                PathJoin(cfg.copyLocation, TarName(id)),
                PathJoin(cfg.fastqLocationsFolder, id + "_fastq_loc.txt"))
  }

  /** Distinct projects get distinct manifest files. */
  lemma ManifestPathInjective(cfg: Config, a: string, b: string)
    requires ManifestPath(cfg, a) == ManifestPath(cfg, b)
    ensures a == b
  {
    var prefix, suffix := cfg.fastqLocationsFolder + "/", "_fastq_loc.txt";
    assert ManifestPath(cfg, a) == prefix + a + suffix;
    assert ManifestPath(cfg, b) == prefix + b + suffix;
    assert (prefix + a + suffix)[|prefix|..|prefix| + |a|] == a;
    assert (prefix + b + suffix)[|prefix|..|prefix| + |b|] == b;
  }

  /**
   * With folders configured without a trailing slash, rsync copies the very
   * folder that was listed, and the server cleanup deletes the manifest
   * file that staging wrote.
   */
  lemma StagedPathsAgree(cfg: Config, id: string)
    requires AnalysisRoot(cfg) != [] && AnalysisRoot(cfg)[|AnalysisRoot(cfg)| - 1] != '/'
    requires cfg.fastqLocationsFolder != [] && cfg.fastqLocationsFolder[|cfg.fastqLocationsFolder| - 1] != '/'
    requires !StartsWith(id, "/")
    ensures PathJoin(AnalysisRoot(cfg), id) == ProjectDir(cfg, id)
    ensures ServerCleanup(cfg, id).manifest == ManifestPath(cfg, id)
  {
    var name := id + "_fastq_loc.txt";
    assert !StartsWith(name, "/") by {
      if id != [] {
        assert name[0] == id[0] && id[..1] != "/";
      } else {
        assert name[0] == '_';
      }
    }
    assert cfg.fastqLocationsFolder + "/" + name == ManifestPath(cfg, id);
  }

  /** The stdout of a command, given every step taken before it. */
  type Env = (seq<Step>, Step) -> string

  /**
   * Why a project was left for a later run. `DestinationRejected` is the
   * lookup's project id having at most four characters: no match, several
   * matches, or a single match whose id is that short.
   */
  datatype Stop =
    | Ledgered | MarkerAbsent | ManifestFailed | TarFailed | DestinationRejected
    | ArchiveUploadFailed | ManifestUploadFailed | SourceCleanupFailed

  /** The exceptions that escape `go()`. */
  datatype Error =
    | MarkerCheckReturnedNone      // unpacking None at the call of check_project_archived
    | RsyncReportFormatting        // "%" on a message without a placeholder
    | ProjectLineUnpacking         // a dx find line without exactly four fields
    | ServerCleanupUndefinedName   // `project` is not defined in cleanup_genomics_server

  datatype ProjectResult = Stopped(stop: Stop) | Raised(error: Error)

  /**
   * One project done: every step taken so far, those before the project
   * included; whether its id was appended to the ledger; how it ended.
   */
  datatype Attempt = Attempt(trace: seq<Step>, appended: bool, result: ProjectResult)

  /**
   * Whether the output of a step lets `go()` go on to the next one. Writing
   * the ledger always does; the server cleanup never does, since it raises.
   */
  predicate GatePassed(id: string, s: Step, out: string) {
    match s
    case ListAnalysis(_) => true
    case ListProject(_) => MarkerVerdict(id, out).Ready?
    case CaptureManifest(_, _) => ExitStatusZero(out)
    case Rsync(_, _) => ExitStatusZero(out)
    case Tar(_, _, _) => NoOutput(out)
    case FindProject(_) => DestinationFound(DestinationLookup(out))
    case Upload(_, _) => UploadSucceeded(out)
    case EmptyProjectFolder(_) => NoOutput(out)
    case DeleteFastqs(_) => NoOutput(out)
    case AppendLedger(_) => true
    case CleanServer(_, _, _) => false
  }

  /**
   * The steps go strictly forward: each step after the first is taken only
   * when the one before it passed, and the last one taken did not pass.
   */
  predicate GatedRun(id: string, env: Env, h: seq<Step>, steps: seq<Step>)
    decreases |steps|
  {
    if steps == [] then true
    else
      var passed := GatePassed(id, steps[0], env(h, steps[0]));
      if |steps| == 1 then !passed else passed && GatedRun(id, env, h + [steps[0]], steps[1..])
  }

  predicate IsPrefix(p: seq<Step>, s: seq<Step>) {
    |p| <= |s| && s[..|p|] == p
  }

  /**
   * An attempt that follows `chain` after the history `h`: it took at least
   * one step; its steps are gated and a prefix of `chain`; it appended to the
   * ledger exactly when it wrote `id` there, and then it took the whole
   * chain and raised in the server cleanup.
   */
  predicate Follows(id: string, env: Env, h: seq<Step>, a: Attempt, chain: seq<Step>) {
    && |h| < |a.trace| && a.trace[..|h|] == h
    && var steps := a.trace[|h|..];
      && GatedRun(id, env, h, steps)
      && IsPrefix(steps, chain)
      && (a.appended <==> AppendLedger(id) in steps)
      && (a.appended ==> steps == chain && a.result == Raised(ServerCleanupUndefinedName))
  }

  /** Taking the first step of a chain, passing it, then following the rest of the chain. */
  lemma ThenFollows(id: string, env: Env, h: seq<Step>, s: Step, a: Attempt, chain: seq<Step>)
    requires chain != [] && chain[0] == s
    requires GatePassed(id, s, env(h, s))
    requires Follows(id, env, h + [s], a, chain[1..])
    requires s.AppendLedger? ==> s.id == id && a.appended
    ensures Follows(id, env, h, a, chain)
  {
    var steps, inner := a.trace[|h|..], a.trace[|h| + 1..];
    assert a.trace[..|h| + 1] == h + [s];
    assert a.trace[..|h|] == (h + [s])[..|h|] == h;
    assert steps[0] == s && steps[1..] == inner;
    assert chain[..|steps|] == [s] + chain[1..][..|inner|];
    assert [s] + chain[1..] == chain;
  }

  /** Taking the first step of a chain and stopping there, because it failed. */
  lemma LastFollows(id: string, env: Env, h: seq<Step>, s: Step, r: ProjectResult, chain: seq<Step>)
    requires chain != [] && chain[0] == s
    requires !GatePassed(id, s, env(h, s))
    ensures Follows(id, env, h, Attempt(h + [s], false, r), chain)
  {
    assert (h + [s])[|h|..] == [s];
  }

  // ---------------------------------------------------------------------------
  // The order of the steps when every gate passes

  function DestinationName(l: Lookup): string {
    if l.Match? then l.projectName else []
  }

  function FinalizeChain(cfg: Config, id: string, adx: string): seq<Step> {
    [EmptyProjectFolder(ProjectDir(cfg, id)), DeleteFastqs(PickedUpFastqs(cfg, adx)),
     AppendLedger(id), ServerCleanup(cfg, id)]
  }

  function PublishChain(cfg: Config, env: Env, h: seq<Step>, id: string, adx: string): seq<Step> {
    var find := FindProject(adx);
    var dest := DestinationName(DestinationLookup(env(h, find)));
    [find, Upload(TarName(id), dest), Upload(ManifestPath(cfg, id), dest)] + FinalizeChain(cfg, id, adx)
  }

  function StagingChain(cfg: Config, env: Env, h: seq<Step>, id: string, adx: string): seq<Step> {
    var manifest := CaptureManifest(ProjectDir(cfg, id), ManifestPath(cfg, id));
    var rsync := Rsync(PathJoin(AnalysisRoot(cfg), id), cfg.copyLocation);
    var tar := Tar(cfg.copyLocation, TarName(id), id);
    [manifest, rsync, tar] + PublishChain(cfg, env, h + [manifest] + [rsync] + [tar], id, adx)
  }

  /** The eleven steps of a project that passes every gate, in `go()`'s order. */
  function ProjectChain(cfg: Config, env: Env, h: seq<Step>, id: string): seq<Step> {
    var list := ListProject(ProjectDir(cfg, id));
    var verdict := MarkerVerdict(id, env(h, list));
    [list] + StagingChain(cfg, env, h + [list], id, if verdict.Ready? then verdict.adx else [])
  }

  // ---------------------------------------------------------------------------
  // One project: the body of the loop in `go()`

  /** The stages a project goes through once its marker was found. */
  datatype Stage = Staging | Publishing | Finalizing

  function StageRank(stage: Stage): nat {
    match stage
    case Staging => 2
    case Publishing => 1
    case Finalizing => 0
  }

  /**
   * A project from the given stage on, after the steps `h`. Staging writes
   * the manifest, rsyncs the project folder to the copy location and tars it
   * there; a failed rsync raises instead of returning. Publishing finds the
   * single DNAnexus project matching the ADX name and uploads the tarball
   * and the manifest to it in two calls. Finalizing empties the project
   * folder, deletes the loose fastqs, appends the id to the ledger and
   * cleans the genomics server.
   */
  function Advance(cfg: Config, env: Env, h: seq<Step>, id: string, adx: string, stage: Stage): Attempt
    decreases StageRank(stage)
  {
    match stage
    case Staging =>
      var manifest := CaptureManifest(ProjectDir(cfg, id), ManifestPath(cfg, id));
      var h1 := h + [manifest];
      if !ExitStatusZero(env(h, manifest)) then Attempt(h1, false, Stopped(ManifestFailed))
      else
        var rsync := Rsync(PathJoin(AnalysisRoot(cfg), id), cfg.copyLocation);
        var h2 := h1 + [rsync];
        if !ExitStatusZero(env(h1, rsync)) then Attempt(h2, false, Raised(RsyncReportFormatting))
        else
          var tar := Tar(cfg.copyLocation, TarName(id), id);
          var h3 := h2 + [tar];
          if !NoOutput(env(h2, tar)) then Attempt(h3, false, Stopped(TarFailed))
          else Advance(cfg, env, h3, id, adx, Publishing)
    case Publishing =>
      var find := FindProject(adx);
      var lookup := DestinationLookup(env(h, find));
      var h1 := h + [find];
      if lookup.UnpackError? then Attempt(h1, false, Raised(ProjectLineUnpacking))
      else if |lookup.projectId| <= 4 then Attempt(h1, false, Stopped(DestinationRejected))
      else
        var upTar := Upload(TarName(id), lookup.projectName);
        var h2 := h1 + [upTar];
        if !UploadSucceeded(env(h1, upTar)) then Attempt(h2, false, Stopped(ArchiveUploadFailed))
        else
          var upManifest := Upload(ManifestPath(cfg, id), lookup.projectName);
          var h3 := h2 + [upManifest];
          if !UploadSucceeded(env(h2, upManifest)) then Attempt(h3, false, Stopped(ManifestUploadFailed))
          else Advance(cfg, env, h3, id, adx, Finalizing)
    case Finalizing =>
      var empty := EmptyProjectFolder(ProjectDir(cfg, id));
      var h1 := h + [empty];
      if !NoOutput(env(h, empty)) then Attempt(h1, false, Stopped(SourceCleanupFailed))
      else
        var fastqs := DeleteFastqs(PickedUpFastqs(cfg, adx));
        var h2 := h1 + [fastqs];
        if !NoOutput(env(h1, fastqs)) then Attempt(h2, false, Stopped(SourceCleanupFailed))
        else Attempt(h2 + [AppendLedger(id)] + [ServerCleanup(cfg, id)], true, Raised(ServerCleanupUndefinedName))
  }

  /**
   * One project id as `go()` treats it: skipped when the ledger lists it;
   * otherwise its folder listing decides whether it is archived on the Archer
   * platform, and if so it is staged, published and finalized.
   */
  function ProjectRun(cfg: Config, env: Env, ledger: string, h: seq<Step>, id: string): Attempt {
    if InLedger(ledger, id) then Attempt(h, false, Stopped(Ledgered))
    else
      var list := ListProject(ProjectDir(cfg, id));
      var verdict := MarkerVerdict(id, env(h, list));
      var h1 := h + [list];
      if verdict.NoVerdict? then Attempt(h1, false, Raised(MarkerCheckReturnedNone))
      else if verdict.NotReady? then Attempt(h1, false, Stopped(MarkerAbsent))
      else Advance(cfg, env, h1, id, verdict.adx, Staging)
  }

  /** The finalize stage follows its four steps: the ledger is written only after both source cleanups printed nothing. */
  lemma FinalizeFollows(cfg: Config, env: Env, h: seq<Step>, id: string, adx: string)
    ensures Follows(id, env, h, Advance(cfg, env, h, id, adx, Finalizing), FinalizeChain(cfg, id, adx))
  {
    var a := Advance(cfg, env, h, id, adx, Finalizing);
    var chain := FinalizeChain(cfg, id, adx);
    var empty, fastqs, append, clean := chain[0], chain[1], chain[2], chain[3];
    var h1 := h + [empty];
    var h2 := h1 + [fastqs];
    if !NoOutput(env(h, empty)) {
      LastFollows(id, env, h, empty, Stopped(SourceCleanupFailed), chain);
    } else if !NoOutput(env(h1, fastqs)) {
      LastFollows(id, env, h1, fastqs, Stopped(SourceCleanupFailed), chain[1..]);
      ThenFollows(id, env, h, empty, a, chain);
    } else {
      assert a.trace[..|h2|] == h2;
      assert a.trace[|h2|..] == [append, clean] == chain[2..];
      assert GatedRun(id, env, h2 + [append], [clean]);
      ThenFollows(id, env, h1, fastqs, a, chain[1..]);
      ThenFollows(id, env, h, empty, a, chain);
    }
  }

  /** The publish stage follows its chain, which ends with the finalize stage's. */
  lemma PublishFollows(cfg: Config, env: Env, h: seq<Step>, id: string, adx: string)
    ensures Follows(id, env, h, Advance(cfg, env, h, id, adx, Publishing), PublishChain(cfg, env, h, id, adx))
  {
    var a := Advance(cfg, env, h, id, adx, Publishing);
    var chain := PublishChain(cfg, env, h, id, adx);
    var find, upTar, upManifest := chain[0], chain[1], chain[2];
    var lookup := DestinationLookup(env(h, find));
    var h1 := h + [find];
    var h2 := h1 + [upTar];
    if lookup.UnpackError? {
      LastFollows(id, env, h, find, Raised(ProjectLineUnpacking), chain);
    } else if |lookup.projectId| <= 4 {
      LastFollows(id, env, h, find, Stopped(DestinationRejected), chain);
    } else if !UploadSucceeded(env(h1, upTar)) {
      LastFollows(id, env, h1, upTar, Stopped(ArchiveUploadFailed), chain[1..]);
      ThenFollows(id, env, h, find, a, chain);
    } else if !UploadSucceeded(env(h2, upManifest)) {
      LastFollows(id, env, h2, upManifest, Stopped(ManifestUploadFailed), chain[2..]);
      ThenFollows(id, env, h1, upTar, a, chain[1..]);
      ThenFollows(id, env, h, find, a, chain);
    } else {
      FinalizeFollows(cfg, env, h2 + [upManifest], id, adx);
      assert chain[3..] == FinalizeChain(cfg, id, adx);
      ThenFollows(id, env, h2, upManifest, a, chain[2..]);
      ThenFollows(id, env, h1, upTar, a, chain[1..]);
      ThenFollows(id, env, h, find, a, chain);
    }
  }

  /** The staging stage follows its chain, which ends with the publish stage's. */
  lemma StagingFollows(cfg: Config, env: Env, h: seq<Step>, id: string, adx: string)
    ensures Follows(id, env, h, Advance(cfg, env, h, id, adx, Staging), StagingChain(cfg, env, h, id, adx))
  {
    var a := Advance(cfg, env, h, id, adx, Staging);
    var chain := StagingChain(cfg, env, h, id, adx);
    var manifest, rsync, tar := chain[0], chain[1], chain[2];
    var h1 := h + [manifest];
    var h2 := h1 + [rsync];
    if !ExitStatusZero(env(h, manifest)) {
      LastFollows(id, env, h, manifest, Stopped(ManifestFailed), chain);
    } else if !ExitStatusZero(env(h1, rsync)) {
      LastFollows(id, env, h1, rsync, Raised(RsyncReportFormatting), chain[1..]);
      ThenFollows(id, env, h, manifest, a, chain);
    } else if !NoOutput(env(h2, tar)) {
      LastFollows(id, env, h2, tar, Stopped(TarFailed), chain[2..]);
      ThenFollows(id, env, h1, rsync, a, chain[1..]);
      ThenFollows(id, env, h, manifest, a, chain);
    } else {
      PublishFollows(cfg, env, h2 + [tar], id, adx);
      assert chain[3..] == PublishChain(cfg, env, h2 + [tar], id, adx);
      ThenFollows(id, env, h2, tar, a, chain[2..]);
      ThenFollows(id, env, h1, rsync, a, chain[1..]);
      ThenFollows(id, env, h, manifest, a, chain);
    }
  }

  /**
   * A project in the ledger takes no step. Any other project takes its steps
   * strictly forward along the eleven-step chain, stopping at the first gate
   * that fails; it is appended to the ledger exactly when it reached the
   * ledger write, and then it took the whole chain and raised in the server
   * cleanup.
   */
  lemma ProjectRunFollows(cfg: Config, env: Env, ledger: string, h: seq<Step>, id: string)
    ensures var a := ProjectRun(cfg, env, ledger, h, id);
      && (InLedger(ledger, id) ==> a == Attempt(h, false, Stopped(Ledgered)))
      && (!InLedger(ledger, id) ==> Follows(id, env, h, a, ProjectChain(cfg, env, h, id)))
  {
    if !InLedger(ledger, id) {
      var chain := ProjectChain(cfg, env, h, id);
      var list := chain[0];
      var verdict := MarkerVerdict(id, env(h, list));
      if verdict.NoVerdict? {
        LastFollows(id, env, h, list, Raised(MarkerCheckReturnedNone), chain);
      } else if verdict.NotReady? {
        LastFollows(id, env, h, list, Stopped(MarkerAbsent), chain);
      } else {
        StagingFollows(cfg, env, h + [list], id, verdict.adx);
        ThenFollows(id, env, h, list, ProjectRun(cfg, env, ledger, h, id), chain);
      }
    }
  }

  // ---------------------------------------------------------------------------
  // What one project attempt amounts to

  /** Every step passes its gate, each given the steps before it. */
  predicate AllPass(id: string, env: Env, h: seq<Step>, steps: seq<Step>)
    decreases |steps|
  {
    steps == [] || (GatePassed(id, steps[0], env(h, steps[0])) && AllPass(id, env, h + [steps[0]], steps[1..]))
  }

  /** A gated run along a chain whose first `k` steps all pass takes more than `k` steps. */
  lemma {:induction false} GatedRunOutlastsPasses(id: string, env: Env, h: seq<Step>, steps: seq<Step>, chain: seq<Step>, k: nat)
    requires steps != [] && GatedRun(id, env, h, steps) && IsPrefix(steps, chain)
    requires k <= |chain| && AllPass(id, env, h, chain[..k])
    ensures |steps| > k
    decreases k
  {
    if k > 0 {
      assert steps[0] == chain[0] == chain[..k][0];
      if |steps| > 1 {
        assert chain[..k][1..] == chain[1..][..k - 1];
        assert steps[1..] == chain[1..][..|steps| - 1];
        GatedRunOutlastsPasses(id, env, h + [steps[0]], steps[1..], chain[1..], k - 1);
      }
    }
  }

  /** Every step of a gated run but the last passed its gate. */
  lemma {:induction false} GatedRunPasses(id: string, env: Env, h: seq<Step>, steps: seq<Step>, k: nat)
    requires GatedRun(id, env, h, steps) && k < |steps|
    ensures AllPass(id, env, h, steps[..k])
    decreases k
  {
    if k > 0 {
      assert steps[..k][1..] == steps[1..][..k - 1];
      GatedRunPasses(id, env, h + [steps[0]], steps[1..], k - 1);
    }
  }

  lemma {:induction false} AllPassExtend(id: string, env: Env, h: seq<Step>, steps: seq<Step>, s: Step)
    requires AllPass(id, env, h, steps)
    requires GatePassed(id, s, env(h + steps, s))
    ensures AllPass(id, env, h, steps + [s])
    decreases |steps|
  {
    if steps == [] {
      assert h + [] == h;
    } else {
      assert (steps + [s])[1..] == steps[1..] + [s];
      assert h + [steps[0]] + steps[1..] == h + steps;
      AllPassExtend(id, env, h + [steps[0]], steps[1..], s);
    }
  }

  /** The chain has the ledger write tenth and the server cleanup last, and nowhere else. */
  lemma ProjectChainShape(cfg: Config, env: Env, h: seq<Step>, id: string)
    ensures var chain := ProjectChain(cfg, env, h, id);
      && |chain| == 11 && chain[9] == AppendLedger(id) && chain[10] == ServerCleanup(cfg, id)
      && forall j | 0 <= j < 10 :: !chain[j].CleanServer?
  {
  }

  /** Along an eleven-step chain that writes the ledger tenth, an attempt appends iff the first nine steps pass. */
  lemma FollowsAppendsIffPasses(id: string, env: Env, h: seq<Step>, a: Attempt, chain: seq<Step>)
    requires Follows(id, env, h, a, chain)
    requires |chain| == 11 && chain[9] == AppendLedger(id)
    ensures a.appended <==> AllPass(id, env, h, chain[..9])
  {
    var steps := a.trace[|h|..];
    if a.appended {
      GatedRunPasses(id, env, h, steps, 9);
    }
    if AllPass(id, env, h, chain[..9]) {
      GatedRunOutlastsPasses(id, env, h, steps, chain, 9);
      AllPassExtend(id, env, h, chain[..9], AppendLedger(id));
      assert chain[..9] + [AppendLedger(id)] == chain[..10];
      GatedRunOutlastsPasses(id, env, h, steps, chain, 10);
      assert steps[9] == chain[9];
    }
  }

  /**
   * A project that is not in the ledger is appended to it exactly when every
   * one of the nine steps before the ledger write passed its gate; the ledger
   * write is then the tenth step and the server cleanup the last.
   */
  lemma AppendedIffAllGatesPass(cfg: Config, env: Env, ledger: string, h: seq<Step>, id: string)
    requires !InLedger(ledger, id)
    ensures var chain := ProjectChain(cfg, env, h, id);
      && |chain| == 11 && chain[9] == AppendLedger(id) && chain[10] == ServerCleanup(cfg, id)
      && (ProjectRun(cfg, env, ledger, h, id).appended <==> AllPass(id, env, h, chain[..9]))
  {
    ProjectChainShape(cfg, env, h, id);
    ProjectRunFollows(cfg, env, ledger, h, id);
    FollowsAppendsIffPasses(id, env, h, ProjectRun(cfg, env, ledger, h, id), ProjectChain(cfg, env, h, id));
  }

  /**
   * The server cleanup is only ever the eleventh step of a project, taken
   * right after the ledger write, and only by a project that was appended.
   */
  lemma ServerCleanupOnlyAfterAppend(cfg: Config, env: Env, ledger: string, h: seq<Step>, id: string)
    ensures var a := ProjectRun(cfg, env, ledger, h, id);
      && |h| <= |a.trace| && a.trace[..|h|] == h
      && forall k | |h| <= k < |a.trace| && a.trace[k].CleanServer? ::
           k == |h| + 10 && a.trace[k - 1] == AppendLedger(id) && a.appended
  {
    ProjectRunFollows(cfg, env, ledger, h, id);
    if !InLedger(ledger, id) {
      ProjectChainShape(cfg, env, h, id);
      FollowsCleanupLast(id, env, h, ProjectRun(cfg, env, ledger, h, id), ProjectChain(cfg, env, h, id));
    }
  }

  lemma FollowsCleanupLast(id: string, env: Env, h: seq<Step>, a: Attempt, chain: seq<Step>)
    requires Follows(id, env, h, a, chain)
    requires |chain| == 11 && chain[9] == AppendLedger(id)
    requires forall j | 0 <= j < 10 :: !chain[j].CleanServer?
    ensures forall k | |h| <= k < |a.trace| && a.trace[k].CleanServer? ::
      k == |h| + 10 && a.trace[k - 1] == AppendLedger(id) && a.appended
  {
    var steps := a.trace[|h|..];
    forall k | |h| <= k < |a.trace| && a.trace[k].CleanServer?
      ensures k == |h| + 10 && a.trace[k - 1] == AppendLedger(id) && a.appended
    {
      assert steps[k - |h|] == a.trace[k] == chain[k - |h|];
      assert steps[9] == chain[9] == a.trace[k - 1];
    }
  }

  // ---------------------------------------------------------------------------
  // A run: `go()` over every discovered project

  datatype RunResult = Completed | Aborted(id: string, error: Error)

  /** Every step taken, those before the run included; the ledger text after it; how it ended. */
  datatype Run = Run(trace: seq<Step>, ledger: string, result: RunResult)

  /**
   * The projects in order, after the steps `h`; the first project that
   * raises ends the run, and each project's steps see every step taken
   * before it. A run only ever adds steps.
   */
  function RunProjects(cfg: Config, env: Env, ledger: string, h: seq<Step>, ids: seq<string>): (r: Run)
    ensures |h| <= |r.trace| && r.trace[..|h|] == h
    decreases |ids|
  {
    if ids == [] then Run(h, ledger, Completed)
    else
      var a := ProjectRun(cfg, env, ledger, h, ids[0]);
      var ledger' := if a.appended then ledger + LedgerEntry(ids[0]) else ledger;
      ProjectRunFollows(cfg, env, ledger, h, ids[0]);
      if a.result.Raised? then Run(a.trace, ledger', Aborted(ids[0], a.result.error))
      else
        var r := RunProjects(cfg, env, ledger', a.trace, ids[1..]);
        assert r.trace[..|h|] == r.trace[..|a.trace|][..|h|];
        r
  }

  /** `go()`: list the analysis folder, then run every project folder it names. */
  function GoRun(cfg: Config, env: Env, ledger: string, h: seq<Step>): Run {
    var list := ListAnalysis(AnalysisRoot(cfg));
    var ids := ProjectFolders(Split(env(h, list), '\n'));
    RunProjects(cfg, env, ledger, h + [list], ids)
  }

  /**
   * A run appends at most one id to the ledger: the run then ended with the
   * server cleanup's exception at that id, which was not in the ledger before.
   */
  lemma {:induction false} RunAppendsAtMostOnce(cfg: Config, env: Env, ledger: string, h: seq<Step>, ids: seq<string>)
    ensures var r := RunProjects(cfg, env, ledger, h, ids);
      || r.ledger == ledger
      || (&& r.result.Aborted? && r.result.error == ServerCleanupUndefinedName
          && r.result.id in ids && !InLedger(ledger, r.result.id)
          && r.ledger == ledger + LedgerEntry(r.result.id))
    decreases |ids|
  {
    if ids != [] {
      var a := ProjectRun(cfg, env, ledger, h, ids[0]);
      ProjectRunFollows(cfg, env, ledger, h, ids[0]);
      if !a.appended && !a.result.Raised? {
        RunAppendsAtMostOnce(cfg, env, ledger, a.trace, ids[1..]);
        var r := RunProjects(cfg, env, ledger, a.trace, ids[1..]);
        if r.ledger != ledger {
          assert r.result.id in ids;
        }
      }
    }
  }

  predicate NoDuplicates(lines: seq<string>) {
    forall i, j | 0 <= i < j < |lines| :: lines[i] != lines[j]
  }

  /**
   * Given project ids without line boundaries, a run keeps the ledger
   * line-terminated and free of repeated lines, and forgets no id.
   */
  lemma RunKeepsLedgerWellFormed(cfg: Config, env: Env, ledger: string, h: seq<Step>, ids: seq<string>)
    requires LineTerminated(ledger) && NoDuplicates(SplitLines(ledger))
    requires forall id | id in ids :: IsProjectFolderName(id) && NoLineBreak(id)
    ensures var r := RunProjects(cfg, env, ledger, h, ids);
      && LineTerminated(r.ledger) && NoDuplicates(SplitLines(r.ledger))
      && forall x :: InLedger(r.ledger, x) <==> InLedger(ledger, x) || (r.ledger != ledger && r.result.Aborted? && x == r.result.id)
  {
    var r := RunProjects(cfg, env, ledger, h, ids);
    RunAppendsAtMostOnce(cfg, env, ledger, h, ids);
    if r.ledger != ledger {
      var id := r.result.id;
      LedgerAppendRoundTrip(ledger, id);
      var lines := SplitLines(r.ledger);
      assert lines == SplitLines(ledger) + [id];
      forall i, j | 0 <= i < j < |lines| ensures lines[i] != lines[j] {
        if j == |lines| - 1 {
          assert lines[i] in SplitLines(ledger);
        } else {
          assert lines[i] == SplitLines(ledger)[i] && lines[j] == SplitLines(ledger)[j];
        }
      }
    }
  }

  /** The ids a run does not find in the ledger, in order. */
  function Unarchived(ledger: string, ids: seq<string>): (rest: seq<string>)
    ensures forall x :: x in rest <==> x in ids && !InLedger(ledger, x)
    decreases |ids|
  {
    if ids == [] then []
    else if InLedger(ledger, ids[0]) then Unarchived(ledger, ids[1..])
    else [ids[0]] + Unarchived(ledger, ids[1..])
  }

  /**
   * An id already in the ledger takes no step and changes nothing: the run
   * is the one over the ids that are not in the ledger.
   */
  lemma {:induction false} LedgeredIdsAreSkipped(cfg: Config, env: Env, ledger: string, h: seq<Step>, ids: seq<string>)
    ensures RunProjects(cfg, env, ledger, h, ids) == RunProjects(cfg, env, ledger, h, Unarchived(ledger, ids))
    decreases |ids|
  {
    if ids != [] {
      var a := ProjectRun(cfg, env, ledger, h, ids[0]);
      ProjectRunFollows(cfg, env, ledger, h, ids[0]);
      LedgeredIdsAreSkipped(cfg, env, ledger, a.trace, ids[1..]);
      if !InLedger(ledger, ids[0]) {
        var u := Unarchived(ledger, ids);
        assert u[0] == ids[0] && u[1..] == Unarchived(ledger, ids[1..]);
      }
    }
  }
}
