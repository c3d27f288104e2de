/**
 * The `ArcherArchive` object: the ledger file and the commands it has run
 * are its state. Each command goes to the environment, which answers with
 * its stdout; every method below runs the same command and reads its output
 * the same way as the method of the same name in the script.
 */
module Archive {
  import opened Text
  import opened Interpret
  import opened Pipeline

  class ArcherArchive {
    /** The configuration module's settings. */
    const cfg: Config
    /** The machines the commands run on. */
    const env: Env
    /** The contents of the archived-projects ledger file. */
    var ledger: string
    /** Every step taken so far, oldest first. */
    var trace: seq<Step>

    constructor(cfg: Config, env: Env, ledger: string)
      ensures this.cfg == cfg && this.env == env
      ensures this.ledger == ledger && trace == []
    {
      this.cfg := cfg;
      this.env := env;
      this.ledger := ledger;
      trace := [];
    }

    /** Runs one command and returns its stdout. */
    method Exec(s: Step) returns (out: string)
      modifies this`trace
      ensures out == env(old(trace), s)
      ensures trace == old(trace) + [s]
    {
      out := env(trace, s);
      trace := trace + [s];
    }

    /** `list_archer_projects`: the four-character names in the analysis folder, in order. */
    method ListArcherProjects() returns (ids: seq<string>)
      modifies this`trace
      ensures var list := ListAnalysis(AnalysisRoot(cfg));
        && trace == old(trace) + [list]
        && ids == ProjectFolders(Split(env(old(trace), list), '\n'))
    {
      var out := Exec(ListAnalysis(AnalysisRoot(cfg)));
      ids := ProjectsInListing(out);
    }

    /** `check_previously_archived`: whether the id is a whole line of the ledger. */
    method CheckPreviouslyArchived(id: string) returns (archived: bool)
      ensures archived <==> InLedger(ledger, id)
    {
      var lines := SplitLines(ledger);
      archived := id in lines;
    }

    /** `check_project_archived`: the verdict the project folder's listing gives. */
    method CheckProjectArchived(id: string) returns (v: Verdict)
      modifies this`trace
      ensures var list := ListProject(ProjectDir(cfg, id));
        trace == old(trace) + [list] && v == MarkerVerdict(id, env(old(trace), list))
    {
      var out := Exec(ListProject(ProjectDir(cfg, id)));
      v := MarkerCheck(id, out);
    }

    /** `list_archer_project_files`: writes the manifest; true when the echoed status holds a zero. */
    method ListArcherProjectFiles(id: string) returns (created: bool, manifest: string)
      modifies this`trace
      ensures var s := CaptureManifest(ProjectDir(cfg, id), ManifestPath(cfg, id));
        && trace == old(trace) + [s]
        && created == ExitStatusZero(env(old(trace), s))
        && manifest == ManifestPath(cfg, id)
    {
      manifest := ManifestPath(cfg, id);
      var out := Exec(CaptureManifest(ProjectDir(cfg, id), manifest));
      created := ExitStatusZero(out);
    }

    /**
     * `copy_archer_project`: true when the echoed status holds a zero. On
     * false the script raises while formatting its error message.
     */
    method CopyArcherProject(id: string) returns (copied: bool)
      modifies this`trace
      ensures var s := Rsync(PathJoin(AnalysisRoot(cfg), id), cfg.copyLocation);
        trace == old(trace) + [s] && copied == ExitStatusZero(env(old(trace), s))
    {
      var out := Exec(Rsync(PathJoin(AnalysisRoot(cfg), id), cfg.copyLocation));
      copied := ExitStatusZero(out);
    }

    /** `create_project_tar`: true when tar printed nothing, even on stderr. */
    method CreateProjectTar(id: string) returns (created: bool, tarName: string)
      modifies this`trace
      ensures var s := Tar(cfg.copyLocation, TarName(id), id);
        && trace == old(trace) + [s]
        && created == NoOutput(env(old(trace), s))
        && tarName == TarName(id)
    {
      tarName := TarName(id);
      var out := Exec(Tar(cfg.copyLocation, tarName, id));
      created := NoOutput(out);
    }

    /** `find_DNAnexus_project`: the id and name of the single project whose name holds the ADX name. */
    method FindDnanexusProject(adx: string) returns (l: Lookup)
      modifies this`trace
      ensures trace == old(trace) + [FindProject(adx)]
      ensures l == DestinationLookup(env(old(trace), FindProject(adx)))
    {
      var out := Exec(FindProject(adx));
      l := DestinationLookup(out);
    }

    /** `upload_to_dnanexus`: true when the upload agent printed a file id first. */
    method UploadToDnanexus(file: string, project: string) returns (uploaded: bool)
      modifies this`trace
      ensures trace == old(trace) + [Upload(file, project)]
      ensures uploaded == UploadSucceeded(env(old(trace), Upload(file, project)))
    {
      var out := Exec(Upload(file, project));
      uploaded := UploadSucceeded(out);
    }

    /** `cleanup_archer_project_folder`: true when rm printed nothing on stdout. */
    method CleanupArcherProjectFolder(id: string) returns (emptied: bool)
      modifies this`trace
      ensures var s := EmptyProjectFolder(ProjectDir(cfg, id));
        trace == old(trace) + [s] && emptied == NoOutput(env(old(trace), s))
    {
      var out := Exec(EmptyProjectFolder(ProjectDir(cfg, id)));
      emptied := NoOutput(out);
    }

    /** `cleanup_archer_fastqs`: true when rm printed nothing on stdout. */
    method CleanupArcherFastqs(adx: string) returns (deleted: bool)
      modifies this`trace
      ensures var s := DeleteFastqs(PickedUpFastqs(cfg, adx));
        trace == old(trace) + [s] && deleted == NoOutput(env(old(trace), s))
    {
      var out := Exec(DeleteFastqs(PickedUpFastqs(cfg, adx)));
      deleted := NoOutput(out);
    }

    /** `update_list_archived_projects`: appends the id and a newline to the ledger. */
    method UpdateListArchivedProjects(id: string)
      modifies this`ledger, this`trace
      ensures ledger == old(ledger) + LedgerEntry(id)
      ensures trace == old(trace) + [AppendLedger(id)]
    {
      ledger := ledger + LedgerEntry(id);
      trace := trace + [AppendLedger(id)];
    }

    /**
     * `cleanup_genomics_server`: runs the three deletions, then raises
     * whichever way their status went, because its log message names an
     * undefined variable.
     */
    method CleanupGenomicsServer(id: string) returns (err: Error)
      modifies this`trace
      ensures trace == old(trace) + [ServerCleanup(cfg, id)]
      ensures err == ServerCleanupUndefinedName
    {
      var _ := Exec(ServerCleanup(cfg, id));
      err := ServerCleanupUndefinedName;
    }

    /** The two source cleanups, the ledger write and the server cleanup. */
    method FinalizeProject(id: string, adx: string) returns (result: ProjectResult)
      modifies this`ledger, this`trace
      ensures var a := Advance(cfg, env, old(trace), id, adx, Finalizing);
        && trace == a.trace
        && ledger == (if a.appended then old(ledger) + LedgerEntry(id) else old(ledger))
        && result == a.result
    {
      var emptied := CleanupArcherProjectFolder(id);
      if !emptied {
        return Stopped(SourceCleanupFailed);
      }
      var deleted := CleanupArcherFastqs(adx);
      if !deleted {
        return Stopped(SourceCleanupFailed);
      }
      UpdateListArchivedProjects(id);
      var err := CleanupGenomicsServer(id);
      result := Raised(err);
    }

    /** Finding the destination project and the two uploads. */
    method PublishProject(id: string, adx: string, manifest: string, tarName: string) returns (result: ProjectResult)
      requires manifest == ManifestPath(cfg, id) && tarName == TarName(id)
      modifies this`ledger, this`trace
      ensures var a := Advance(cfg, env, old(trace), id, adx, Publishing);
        && trace == a.trace
        && ledger == (if a.appended then old(ledger) + LedgerEntry(id) else old(ledger))
        && result == a.result
    {
      var lookup := FindDnanexusProject(adx);
      if lookup.UnpackError? {
        return Raised(ProjectLineUnpacking);
      } else if |lookup.projectId| <= 4 {
        return Stopped(DestinationRejected);
      }
      var tarUploaded := UploadToDnanexus(tarName, lookup.projectName);
      if !tarUploaded {
        return Stopped(ArchiveUploadFailed);
      }
      var manifestUploaded := UploadToDnanexus(manifest, lookup.projectName);
      if !manifestUploaded {
        return Stopped(ManifestUploadFailed);
      }
      result := FinalizeProject(id, adx);
    }

    /** Writing the manifest, the rsync copy and the tar. */
    method StageProject(id: string, adx: string) returns (result: ProjectResult)
      modifies this`ledger, this`trace
      ensures var a := Advance(cfg, env, old(trace), id, adx, Staging);
        && trace == a.trace
        && ledger == (if a.appended then old(ledger) + LedgerEntry(id) else old(ledger))
        && result == a.result
    {
      var listCreated, listFilename := ListArcherProjectFiles(id);
      if !listCreated {
        return Stopped(ManifestFailed);
      }
      var copied := CopyArcherProject(id);
      if !copied {
        return Raised(RsyncReportFormatting);
      }
      var tarCreated, tarName := CreateProjectTar(id);
      if !tarCreated {
        return Stopped(TarFailed);
      }
      result := PublishProject(id, adx, listFilename, tarName);
    }

    /** The body of the loop in `go()` for one project id. */
    method ArchiveProject(id: string) returns (result: ProjectResult)
      modifies this`ledger, this`trace
      ensures var a := ProjectRun(cfg, env, old(ledger), old(trace), id);
        && trace == a.trace
        && ledger == (if a.appended then old(ledger) + LedgerEntry(id) else old(ledger))
        && result == a.result
    {
      var archived := CheckPreviouslyArchived(id);
      if archived {
        return Stopped(Ledgered);
      }
      var verdict := CheckProjectArchived(id);
      if verdict.NoVerdict? {
        return Raised(MarkerCheckReturnedNone);
      } else if verdict.NotReady? {
        return Stopped(MarkerAbsent);
      }
      result := StageProject(id, verdict.adx);
    }

    /**
     * `go()`: every project folder in turn, until one of them raises; the
     * exception ends the run.
     */
    method Go() returns (result: RunResult)
      modifies this`ledger, this`trace
      ensures var r := GoRun(cfg, env, old(ledger), old(trace));
        trace == r.trace && ledger == r.ledger && result == r.result
    {
      ghost var whole := GoRun(cfg, env, ledger, trace);
      var ids := ListArcherProjects();
      var i := 0;
      while i < |ids|
        invariant 0 <= i <= |ids|
        invariant RunProjects(cfg, env, ledger, trace, ids[i..]) == whole
      {
        assert ids[i..][0] == ids[i] && ids[i..][1..] == ids[i + 1..];
        var r := ArchiveProject(ids[i]);
        if r.Raised? {
          return Aborted(ids[i], r.error);
        }
        i := i + 1;
      }
      assert ids[i..] == [];
      result := Completed;
    }
  }
}
