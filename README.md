# Archer archive pipeline, modelled in Dafny

`archer_archive_script.py` moves projects from the Archer analysis platform to DNAnexus. It lists the project folders of the analysis directory. It skips every project already named in a ledger file. A project is archived on the Archer platform when its folder holds `<id>.tar.gz`; for such a project the script:

- writes a manifest (`ls -l`) of the project folder;
- rsyncs the folder to the genomics server and tars it there;
- finds the single DNAnexus project whose name holds the run's ADX name;
- uploads the tarball and the manifest to that project;
- empties the project folder and deletes the run's fastqs;
- appends the id to the ledger and cleans the genomics server.

The model has four modules:

- `Text` (`text.dfy`) holds the Python string operations the script relies on: `split`, `splitlines`, `rstrip`, `startswith` and `in`.
- `Interpret` (`interpret.dfy`) holds the decisions the script takes from command output. These are discovery, ledger membership, the archive marker and ADX name, `success_in_stdout`, the DNAnexus lookup, and the upload, tar and `rm` tests.
- `Pipeline` (`pipeline.dfy`) describes `go()` as functions, plus the lemmas about it.
  - A command is a `Step`.
  - The machines the commands run on are an environment `Env`. It gives each command's stdout as a function of the command and of every step taken before it.
  - `ProjectRun` is one project id. It yields the full list of steps taken, whether the id was appended to the ledger, and how the project ended.
  - `RunProjects`/`GoRun` is a whole run. It yields the full list of steps taken, the ledger text and how the run ended.
- `Archive` (`archive.dfy`) holds the class `ArcherArchive`. Its fields are the ledger text and the trace of steps. It has one method for each script method that runs a command or writes the ledger; `success_in_stdout` is the predicate `Interpret.SuccessInStdout`, and `logger` is left out. `FinalizeProject`, `PublishProject`, `StageProject` and `ArchiveProject` are not script methods: they are the parts of the loop body of `go()`. Each method is proved to do what the corresponding `Interpret` or `Pipeline` function says (`Exec` what the environment answers), and `Go` is the `for` loop of `go()`.

The ledger is modelled as the text of the ledger file. `check_previously_archived` reads it with `splitlines()`, and `update_list_archived_projects` appends `id + "\n"` to it.

The model follows the script as written, including these behaviours:

- The tarball and the manifest are uploaded in two separate calls, and the second can fail after the first succeeded.
- The ledger append happens only after both source cleanups printed nothing on stdout. The cleanups are not best-effort. Their stderr is not read, so an `rm` that fails with only an error message passes.
- The genomics-server cleanup also deletes the manifest file.
- The pipeline raises in four places, and the exception ends the whole run, not just that project:
  - `check_project_archived` returns `None` when every listing line is the marker and no line starts with `ADX`, which fails to unpack at line 392;
  - the rsync failure message has a `%` with no placeholder (line 180);
  - a `dx find` line without exactly four space-separated fields fails to unpack (line 226);
  - `cleanup_genomics_server` names the undefined variable `project` in both branches (lines 332 and 336), after its `rm` command has run.

  Because of the last one, every run stops right after the first project it appends to the ledger (`RunAppendsAtMostOnce`).
- In `check_project_archived` only the first listing line decides readiness. Later lines are compared with the marker only when no line starts with `ADX`, and can then give only `(False, "none")` or `None`.
- Discovery splits the listing on `\n` only and keeps every four-character name, while the ledger is read with `splitlines()`. An id holding another line boundary (`\r`, `\v`, `\f`, U+001C to U+001E, U+0085, U+2028 or U+2029) is therefore never found in the ledger, even after its own append, and that append adds the pieces of the id as separate lines (`IdWithLineBreakIsNeverLedgered`, `CarriageReturnIdSplitsInLedger`). The ledger properties below hold for ids free of line boundaries.
- A ledger file without a final newline merges its last entry with the next appended id into one line (`UnterminatedLedgerMergesLastEntry`).
- The exit-status test `success_in_stdout(out.rstrip(), "0")` is a substring test. It accepts any output that holds the digit 0, for example an exit status of 10.

## Model

| member | source | states |
|---|---|---|
| Text.StartsWith | archer_archive_script.py:105 | `s.startswith(p)`: `p` is no longer than `s` and equals the start of `s` of the same length |
| Text.Contains | archer_archive_script.py:344 | `t in s` for strings: `t` starts `s` or occurs in what follows its first character |
| Text.Split | archer_archive_script.py:51 | `s.split(c)`: the pieces between separators, empty end pieces included; there is always at least one piece and none holds the separator |
| Text.SplitLines | archer_archive_script.py:65 | `s.splitlines()`: the lines without their boundaries, `\r\n` counting as one boundary and no empty line after a final boundary |
| Text.JoinSplit | archer_archive_script.py:51 | joining the pieces of `s.split(c)` with `c` gives `s` back |
| Text.SplitJoin | archer_archive_script.py:219 | splitting a join of separator-free pieces gives the pieces back |
| Text.SplitCount | archer_archive_script.py:219-220 | `s.split(c)` has one piece more than `s` has occurrences of `c` |
| Text.SplitTrailingSeparator | archer_archive_script.py:101 | a string ending in the separator splits into at least two pieces, the last one empty |
| Text.SplitLinesHaveNoBreaks | archer_archive_script.py:65 | no line from `splitlines()` holds a line boundary |
| Text.SplitLinesAppend | archer_archive_script.py:65 | the lines of a line-terminated text followed by more text are its lines followed by the lines of the rest, unless a `\r` and a `\n` merge |
| Text.SplitLinesOneLine | archer_archive_script.py:315 | `line + "\n"` is the single line `line` when `line` is non-empty and break-free |
| Text.RStrip | archer_archive_script.py:138 | `rstrip()` returns the longest prefix that does not end in whitespace; all that was cut is whitespace |
| Text.RStripKeepsNonSpace | archer_archive_script.py:138 | a non-space character is in `s.rstrip()` iff it is in `s` |
| Text.ContainsChar | archer_archive_script.py:344 | the substring test for a one-character needle is membership of that character |
| Interpret.IsProjectFolderName | archer_archive_script.py:52 | an entry of the analysis folder names a project when it has exactly four characters |
| Interpret.ProjectFolders | archer_archive_script.py:51-56 | the entries of length four, in listing order |
| Interpret.ProjectFoldersExactly | archer_archive_script.py:51-54 | discovery keeps exactly the four-character entries and drops every other one |
| Interpret.ProjectsInListing | archer_archive_script.py:49-56 | the generator loop yields the four-character lines of the `ls` output, in listing order |
| Interpret.DiscoverySkipsShortNames | archer_archive_script.py:51-52 | a listing of `4767` and `12` yields only `4767` |
| Interpret.InLedger | archer_archive_script.py:65-67 | the id equals a whole line of the ledger text as `splitlines()` cuts it |
| Interpret.LedgerEntry | archer_archive_script.py:315 | the text written for an id: the id followed by a newline |
| Interpret.LedgerAppendRoundTrip | archer_archive_script.py:64-67 | for a non-empty id holding no line boundary, appending `id + "\n"` to an empty or line-terminated ledger adds exactly `id` as its last line, keeps it line-terminated, and makes `id` a member |
| Interpret.LedgerMatchesWholeLines | archer_archive_script.py:65-67 | membership is whole-line equality: a ledger holding `14767` does not hold `4767` |
| Interpret.UnterminatedLedgerMergesLastEntry | archer_archive_script.py:314-315 | appending an id free of line boundaries to a ledger whose last entry has no final newline merges that entry with the new id into one line; the members are then the earlier lines and the merged line |
| Interpret.UnterminatedLedgerLosesLastEntry | archer_archive_script.py:314-315 | example: the ledger `4767` without a final newline, after `4768` is appended, no longer holds `4767` |
| Interpret.IdWithLineBreakIsNeverLedgered | archer_archive_script.py:65-67 | an id holding a line boundary is in no ledger, whatever its text |
| Interpret.CarriageReturnIdSplitsInLedger | archer_archive_script.py:51-52 | discovery yields the id `ab\rc`; appending it gives the ledger lines `ab` and `c`, and the id is still not a member |
| Interpret.TarName | archer_archive_script.py:100 | `<id>.tar.gz`: the marker looked for in the project folder, and the tarball's name at line 194 |
| Interpret.TarNameInjective | archer_archive_script.py:194 | distinct ids have distinct `<id>.tar.gz` names |
| Interpret.FirstIndexWithPrefix | archer_archive_script.py:104-105 | the index found is that of the first line starting with the prefix; no earlier line does |
| Interpret.AdxNameOfAdxLine | archer_archive_script.py:105-106 | the name cut before the first `_` of an `ADX` line starts with `ADX`, has no `_`, and starts the line |
| Interpret.AdxName | archer_archive_script.py:106 | `line.split("_", 1)[0]`: the text before the first underscore |
| Interpret.MarkerVerdict | archer_archive_script.py:99-112 | not ready when the first line is not the marker; otherwise the name from the first `ADX` line; with no `ADX` line, not ready at the first later line that is not the marker, and no verdict (`None`) when every line is the marker |
| Interpret.MarkerCheck | archer_archive_script.py:99-112 | the nested loops with their early returns give the verdict `MarkerVerdict` describes |
| Interpret.MarkerVerdictReady | archer_archive_script.py:100-108 | ready iff the first listing line is the marker and some line starts with `ADX`; the name is then cut from the first such line |
| Interpret.TerminatedListingHasVerdict | archer_archive_script.py:101-112 | output ending in a newline always gets a verdict, so the `None` return needs output without a final newline |
| Interpret.MarkerFirstGivesName | archer_archive_script.py:100-108 | the marker followed by `ADX21030_...` gives the name `ADX21030` |
| Interpret.FirstLineNotMarkerIsNotReady | archer_archive_script.py:101-112 | when the first listing line is not the marker the project is not ready, `(False, "none")`, whatever the later lines hold |
| Interpret.MarkerLaterIsMissed | archer_archive_script.py:101-112 | instance: a marker on the second line, after a first line that is not the marker, is not seen, so the project is not ready |
| Interpret.MarkerOnlyListingHasNoVerdict | archer_archive_script.py:101-112 | a listing of the marker twice, with no `ADX` line and no final newline, gets no verdict: the later line is compared with the marker too |
| Interpret.SuccessInStdout | archer_archive_script.py:339-345 | true when the expected text is non-empty and occurs in the output; the `None` the script returns otherwise is false |
| Interpret.ExitStatusZero | archer_archive_script.py:138 | the test on `...; echo $?` output: `success_in_stdout(out.rstrip(), "0")`, as at lines 138 and 175 |
| Interpret.ExitStatusZeroIsDigitSearch | archer_archive_script.py:339-345 | `success_in_stdout(out.rstrip(), "0")` holds iff the digit 0 occurs anywhere in the output |
| Interpret.ExitStatusTenPasses | archer_archive_script.py:138 | outputs `0` and `10` pass as success; `1` and empty output fail |
| Interpret.DestinationLookup | archer_archive_script.py:219-228 | `("fail", "fail")` unless the output splits on newlines into two pieces; otherwise the first and third space-separated fields of the first line, or the unpacking error when it does not have exactly four |
| Interpret.DestinationFound | archer_archive_script.py:409 | the lookup gave a pair whose project id is longer than four characters |
| Interpret.DestinationNeedsOneLine | archer_archive_script.py:219-223 | a destination is found only for output with exactly one newline; any other output gives `("fail", "fail")`, which stops the project |
| Interpret.DestinationLookupRoundTrip | archer_archive_script.py:219-228 | a `<id> : <name> <access>` line reads back as `(id, name)` |
| Interpret.TwoDestinationsFail | archer_archive_script.py:219-223 | two matching projects give `("fail", "fail")` |
| Interpret.UploadSucceeded | archer_archive_script.py:245 | the upload agent's output starts with `file-` |
| Interpret.NoOutput | archer_archive_script.py:199 | the output is empty, the success test of tar (stderr joined to stdout) and of the stdout of the two `rm` cleanups (lines 199, 276 and 298) |
| Interpret.UploadOutcomes | archer_archive_script.py:245-252 | `file-xyz123` is a successful upload and `error: disk full` is not |
| Pipeline.AnalysisRoot | archer_archive_script.py:39-48 | the analysis folder, or the analysis test folder when the testing flag is set |
| Pipeline.ProjectDir | archer_archive_script.py:86-97 | `<root>/<id>` under the analysis root the testing flag picks, as also at lines 124-135 and 260-271 |
| Pipeline.ManifestPath | archer_archive_script.py:121 | `<fastq folder>/<id>_fastq_loc.txt`, the manifest file |
| Pipeline.PickedUpFastqs | archer_archive_script.py:291 | `<watch folder>/picked_up_files/<adx>`, the prefix of the fastqs deleted |
| Pipeline.PathJoin | archer_archive_script.py:161-169 | `os.path.join(a, b)`: `b` when it is absolute, `a + b` when `a` is empty or ends in `/`, else `a + "/" + b` |
| Pipeline.ServerCleanup | archer_archive_script.py:325-329 | the step removing `copy/<id>`, `copy/<id>.tar.gz` and `<fastq folder>/<id>_fastq_loc.txt`, each joined with `os.path.join` |
| Pipeline.ManifestPathInjective | archer_archive_script.py:121 | distinct projects get distinct manifest files |
| Pipeline.StagedPathsAgree | archer_archive_script.py:161-169 | with folders configured without a trailing `/`, rsync copies the folder that was listed, and the server cleanup deletes the manifest that staging wrote |
| Pipeline.Advance | archer_archive_script.py:397-421 | one stage onwards: staging (manifest, rsync raising on failure, tar), publishing (lookup raising on a bad line, id longer than four, two uploads), finalizing (two cleanups, ledger write, server cleanup raising); each step taken only when the one before passed |
| Pipeline.ProjectRun | archer_archive_script.py:387-421 | one id: no step when ledgered; otherwise the folder listing, raising on `None`, stopping when not ready, else the stages from staging on |
| Pipeline.GatePassed | archer_archive_script.py:394-420 | the test on each step's stdout before `go()` takes the next step: a ready marker verdict, a zero in the echoed status, no output from tar and the two `rm` commands, a project id longer than four, a `file-` upload answer; the ledger write always passes and the server cleanup never does |
| Pipeline.FinalizeChain | archer_archive_script.py:418-421 | the last four steps in order: empty the project folder, delete the fastqs, write the ledger, clean the server |
| Pipeline.PublishChain | archer_archive_script.py:406-421 | the lookup, the tarball upload and the manifest upload to the project the lookup names, then the finalize steps |
| Pipeline.StagingChain | archer_archive_script.py:397-421 | the manifest, rsync and tar steps, then the publish steps |
| Pipeline.ProjectChain | archer_archive_script.py:392-421 | the eleven steps of a project that passes every gate: the project-folder listing, then the staging steps with the ADX name the listing gives |
| Pipeline.FinalizeFollows | archer_archive_script.py:418-421 | the finalize stage takes its steps in order, stops at the first cleanup that prints anything on stdout, and writes the ledger only after both cleanups pass |
| Pipeline.PublishFollows | archer_archive_script.py:406-416 | the publish stage takes the lookup and the two uploads in order, each only after the previous one passed, then goes on to finalize |
| Pipeline.StagingFollows | archer_archive_script.py:397-404 | the staging stage takes the manifest, rsync and tar steps in order, each only after the previous one passed, then goes on to publish |
| Pipeline.ProjectRunFollows | archer_archive_script.py:387-421 | a ledgered id takes no step. Any other id takes a prefix of the eleven-step chain, each step only after the one before it passed. It is appended iff it reached the ledger write, and then it took the whole chain and raised |
| Pipeline.ProjectChainShape | archer_archive_script.py:390-421 | the chain has eleven steps: the ledger write tenth, the server cleanup last and nowhere else |
| Pipeline.AppendedIffAllGatesPass | archer_archive_script.py:390-420 | an id not in the ledger is appended iff each of the nine steps before the ledger write passed its gate |
| Pipeline.ServerCleanupOnlyAfterAppend | archer_archive_script.py:418-421 | the server cleanup is only ever the eleventh step, right after the ledger write, of a project that was appended |
| Pipeline.RunProjects | archer_archive_script.py:387-421 | a run only adds steps to those taken before it |
| Pipeline.GoRun | archer_archive_script.py:382-421 | `go()`: list the analysis root, then run the projects its four-character entries name |
| Pipeline.RunAppendsAtMostOnce | archer_archive_script.py:318-337 | a run appends at most one id, which was not in the ledger; it then ended with the server cleanup's exception at that id |
| Pipeline.RunKeepsLedgerWellFormed | archer_archive_script.py:306-316 | when every id holds no line boundary, a run keeps the ledger line-terminated and free of repeated lines; afterwards it holds exactly the old ids plus the one appended |
| Pipeline.Unarchived | archer_archive_script.py:390 | the ids left after the ledger check are exactly the discovered ids not in the ledger |
| Pipeline.LedgeredIdsAreSkipped | archer_archive_script.py:387-390 | a run over all discovered ids is the run over the ids not in the ledger: ledgered ids take no step and change nothing |
| Archive.ArcherArchive.constructor | archer_archive_script.py:24-31 | starts with the given configuration, environment and ledger text, and no steps |
| Archive.ArcherArchive.Exec | archer_archive_script.py:347-361 | runs one command: returns the environment's answer and records the step |
| Archive.ArcherArchive.ListArcherProjects | archer_archive_script.py:33-56 | lists the analysis root (the test folder when testing) and returns its four-character entries |
| Archive.ArcherArchive.CheckPreviouslyArchived | archer_archive_script.py:58-72 | true iff the id is a line of the ledger; takes no step |
| Archive.ArcherArchive.CheckProjectArchived | archer_archive_script.py:74-112 | lists the project folder and returns the verdict on that listing |
| Archive.ArcherArchive.ListArcherProjectFiles | archer_archive_script.py:114-144 | writes the manifest to `<fastq folder>/<id>_fastq_loc.txt`; created iff the echoed status passes the exit-status test |
| Archive.ArcherArchive.CopyArcherProject | archer_archive_script.py:146-181 | rsyncs `os.path.join(root, id)` to the copy location; true iff the echoed status passes the exit-status test. The script never returns false: `false` stands for the TypeError raised at line 180, which `StageProject` turns into that exception |
| Archive.ArcherArchive.CreateProjectTar | archer_archive_script.py:183-205 | tars `<id>` into `<id>.tar.gz` inside the copy location; true iff tar printed nothing |
| Archive.ArcherArchive.FindDnanexusProject | archer_archive_script.py:207-228 | looks up projects whose name holds the ADX name and returns the lookup result of that output |
| Archive.ArcherArchive.UploadToDnanexus | archer_archive_script.py:230-252 | uploads one file; true iff the output starts with `file-` |
| Archive.ArcherArchive.CleanupArcherProjectFolder | archer_archive_script.py:254-282 | empties the project folder; true iff `rm` printed nothing on stdout |
| Archive.ArcherArchive.CleanupArcherFastqs | archer_archive_script.py:284-304 | deletes `<watch>/picked_up_files/<adx>*`; true iff `rm` printed nothing on stdout |
| Archive.ArcherArchive.UpdateListArchivedProjects | archer_archive_script.py:306-316 | appends `id + "\n"` to the ledger and records the write |
| Archive.ArcherArchive.CleanupGenomicsServer | archer_archive_script.py:318-337 | removes the copied folder, the tarball and the manifest, then raises the undefined-name error whatever the status |
| Archive.ArcherArchive.FinalizeProject | archer_archive_script.py:418-421 | takes the steps, writes the ledger and returns the outcome that the finalize stage prescribes |
| Archive.ArcherArchive.PublishProject | archer_archive_script.py:406-416 | takes the steps, writes the ledger and returns the outcome that the publish stage prescribes |
| Archive.ArcherArchive.StageProject | archer_archive_script.py:397-404 | takes the steps, writes the ledger and returns the outcome that the staging stage prescribes |
| Archive.ArcherArchive.ArchiveProject | archer_archive_script.py:388-421 | does to the trace and the ledger what `ProjectRun` prescribes for one id, and returns its outcome |
| Archive.ArcherArchive.Go | archer_archive_script.py:382-421 | the loop over the discovered ids leaves the trace and the ledger as `GoRun` prescribes, and ends as it does |

## Left out

- Running the commands: `execute_subprocess_command`, ssh and sshpass, and the command strings. A command is a `Step` value. Its stdout comes from the environment parameter, which may depend on every earlier step. Stderr, exit codes and the bytes-to-text decoding are not modelled. The tar step's `2>&1` is folded into its stdout.
- `logger`, the script's log file, every `print`, and `__init__` with its clock-based log name are not modelled. None of them affects a decision.
- `archer_archive_config.py` is not part of this model. Its settings are a `Config` value of opaque strings.
- The real effects of `rm`, `rsync`, `tar`, the upload agent and DNAnexus are not modelled. Only the ledger file's contents are.
- A missing ledger file (an `IOError` in `check_previously_archived`) is not modelled: the ledger is always some text.
- Generator laziness: discovery lists the analysis folder once before the loop. The lazy generator behaves the same, because nothing runs between the listing and the first id.
- Archive.ArcherArchive.CheckPreviouslyArchived reads the ledger field instead of reopening the file. The model has no other writer of the file.
