/**
 * The decisions the archiving script takes from the text its shell commands
 * print: which analysis folders are projects, whether a project is in the
 * ledger of archived projects, whether the Archer platform has archived it and
 * under which ADX name, whether a command reported exit status zero, which
 * DNAnexus project matches, and whether an upload or a deletion succeeded.
 */
module Interpret {
  import opened Text

  // ---------------------------------------------------------------------------
  // Discovery: `list_archer_projects`

  /** A folder of the analysis directory is a project when its name has four characters. */
  predicate IsProjectFolderName(name: string) {
    |name| == 4
  }

  /** The entries of a listing that name projects, in listing order. */
  function ProjectFolders(entries: seq<string>): seq<string>
    decreases |entries|
  {
    if entries == [] then []
    else (if IsProjectFolderName(entries[0]) then [entries[0]] else []) + ProjectFolders(entries[1..])
  }

  /** Exactly the four-character entries are kept, and nothing else. */
  lemma {:induction false} ProjectFoldersExactly(entries: seq<string>)
    ensures forall x :: x in ProjectFolders(entries) <==> x in entries && IsProjectFolderName(x)
    ensures |ProjectFolders(entries)| <= |entries|
    decreases |entries|
  {
    if entries != [] {
      ProjectFoldersExactly(entries[1..]);
      assert entries == [entries[0]] + entries[1..];
    }
  }

  /**
   * The generator loop of `list_archer_projects`: walk the lines of the
   * `ls` output and keep those of length four.
   */
  method ProjectsInListing(listing: string) returns (ids: seq<string>)
    ensures ids == ProjectFolders(Split(listing, '\n'))
  {
    var entries := Split(listing, '\n');
    ids := [];
    var i := 0;
    while i < |entries|
      invariant 0 <= i <= |entries|
      invariant ids + ProjectFolders(entries[i..]) == ProjectFolders(entries)
    {
      assert entries[i..][1..] == entries[i + 1..];
      if IsProjectFolderName(entries[i]) {
        ids := ids + [entries[i]];
      }
      i := i + 1;
    }
    assert entries[i..] == [];
  }

  /** A listing holding `4767` and `12` yields only `4767`. */
  lemma DiscoverySkipsShortNames()
    ensures ProjectFolders(Split("4767\n12\n", '\n')) == ["4767"]
  {
    var listing := "4767\n12\n";
    assert listing == Join(["4767", "12", ""], '\n');
    SplitJoin(["4767", "12", ""], '\n');
  }

  // ---------------------------------------------------------------------------
  // The ledger of archived projects: `check_previously_archived` and
  // `update_list_archived_projects`

  /** The ledger file lists `id` as one of its lines (exact match, not a substring). */
  predicate InLedger(ledger: string, id: string) {
    id in SplitLines(ledger)
  }

  /** The text `update_list_archived_projects` appends for `id`. */
  function LedgerEntry(id: string): string {
    id + "\n"
  }

  /**
   * Appending a project id to a ledger that is empty or ends in a line
   * boundary adds exactly that id as a new last line: afterwards the id is in
   * the ledger, every earlier entry still is, and nothing else was added.
   */
  lemma LedgerAppendRoundTrip(ledger: string, id: string)
    requires LineTerminated(ledger)
    requires id != [] && NoLineBreak(id)
    ensures SplitLines(ledger + LedgerEntry(id)) == SplitLines(ledger) + [id]
    ensures LineTerminated(ledger + LedgerEntry(id))
    ensures forall x :: InLedger(ledger + LedgerEntry(id), x) <==> InLedger(ledger, x) || x == id
  {
    assert !IsLineBreak(id[0]) && LedgerEntry(id)[0] == id[0];
    SplitLinesAppend(ledger, LedgerEntry(id));
    SplitLinesOneLine(id);
    assert SplitLines(ledger + LedgerEntry(id)) == SplitLines(ledger) + [id];
  }

  /** Membership is line equality: `4767` is not archived by a ledger holding `14767`. */
  lemma LedgerMatchesWholeLines()
    ensures !InLedger("14767\n", "4767")
    ensures InLedger("14767\n", "14767")
  {
    assert "14767\n" == "14767" + "\n";
    assert NoLineBreak("14767");
    SplitLinesOneLine("14767");
    assert "4767" != "14767";
  }

  /**
   * Without a final newline the ledger's last entry `last` merges with the
   * appended id into one line `last + id`: afterwards the members are the
   * earlier lines and that merged line, and neither `last` nor `id` is one
   * unless it also sits on an earlier line.
   */
  lemma UnterminatedLedgerMergesLastEntry(earlier: string, last: string, id: string)
    requires LineTerminated(earlier)
    requires last != [] && NoLineBreak(last)
    requires NoLineBreak(id)
    ensures SplitLines(earlier + last + LedgerEntry(id)) == SplitLines(earlier) + [last + id]
    ensures forall x :: InLedger(earlier + last + LedgerEntry(id), x) <==> InLedger(earlier, x) || x == last + id
  {
    var line := last + id;
    assert NoLineBreak(line) by {
      forall i | 0 <= i < |line| ensures !IsLineBreak(line[i]) {
        if i >= |last| { assert line[i] == id[i - |last|]; }
      }
    }
    var rest := last + LedgerEntry(id);
    assert rest == line + "\n" && rest[0] == last[0];
    assert earlier + last + LedgerEntry(id) == earlier + rest;
    SplitLinesAppend(earlier, rest);
    SplitLinesOneLine(line);
  }

  /** For example, the unterminated ledger `4767` followed by `4768` no longer holds `4767`. */
  lemma UnterminatedLedgerLosesLastEntry()
    ensures InLedger("4767", "4767")
    ensures !InLedger("4767" + LedgerEntry("4768"), "4767")
  {
    PrependLinesOfBreakFree("4767");
    UnterminatedLedgerMergesLastEntry("", "4767", "4768");
    assert "" + "4767" + LedgerEntry("4768") == "4767" + LedgerEntry("4768");
    assert SplitLines("") == [];
  }

  /**
   * An id holding a line boundary is never a ledger line: `splitlines()`
   * cuts every line at its boundaries.
   */
  lemma IdWithLineBreakIsNeverLedgered(ledger: string, id: string)
    requires !NoLineBreak(id)
    ensures !InLedger(ledger, id)
  {
    SplitLinesHaveNoBreaks(ledger);
  }

  /**
   * Discovery keeps any four-character name, so it yields `ab\rc`, which
   * holds a carriage return. Appending that id writes the two lines `ab`
   * and `c` to the ledger, and the id itself is still not a member.
   */
  lemma CarriageReturnIdSplitsInLedger()
    ensures ProjectFolders(Split("ab\rc\n", '\n')) == ["ab\rc"]
    ensures SplitLines(LedgerEntry("ab\rc")) == ["ab", "c"]
    ensures !InLedger(LedgerEntry("ab\rc"), "ab\rc")
  {
    CarriageReturnIdDiscovered();
    CarriageReturnEntryLines();
  }

  /** The listing `ab\rc` followed by a newline yields the id `ab\rc`. */
  lemma CarriageReturnIdDiscovered()
    ensures ProjectFolders(Split("ab\rc\n", '\n')) == ["ab\rc"]
  {
    assert "ab\rc\n" == "ab\rc" + ['\n'] + [];
    SplitCons("ab\rc", '\n', []);
  }

  /** The ledger entry written for `ab\rc` reads back as the lines `ab` and `c`. */
  lemma CarriageReturnEntryLines()
    ensures SplitLines(LedgerEntry("ab\rc")) == ["ab", "c"]
  {
    assert LedgerEntry("ab\rc") == "ab\r" + "c\n";
    SplitLinesAppend("ab\r", "c\n");
    assert NoLineBreak("c") && "c\n" == "c" + "\n";
    SplitLinesOneLine("c");
    CarriageReturnEndsLine();
  }

  /** `ab` followed by a carriage return is the single line `ab`. */
  lemma CarriageReturnEndsLine()
    ensures SplitLines("ab\r") == ["ab"]
  {
    var s := "ab\r";
    assert SplitLines(s[2..]) == [[]] by {
      assert s[2..][BreakWidth(s[2..])..] == [];
    }
    assert SplitLines(s[1..]) == ["b"] by {
      assert s[1..][1..] == s[2..] && ['b'] + [] == "b";
    }
    assert ['a'] + "b" == "ab";
  }

  /** A break-free non-empty text is one line, with or without a final newline. */
  lemma {:induction false} PrependLinesOfBreakFree(s: string)
    requires s != [] && NoLineBreak(s)
    ensures SplitLines(s) == [s]
    decreases |s|
  {
    if |s| > 1 {
      PrependLinesOfBreakFree(s[1..]);
      assert [s[0]] + s[1..] == s;
    } else {
      assert SplitLines(s[1..]) == [];
      assert [s[0]] == s;
    }
  }

  // ---------------------------------------------------------------------------
  // The archive marker and the ADX name: `check_project_archived`

  /** `"%s.tar.gz" % id`: the marker the Archer platform leaves, and the name of our tarball. */
  function TarName(id: string): string {
    id + ".tar.gz"
  }

  /** Different projects never share a tarball name. */
  lemma TarNameInjective(a: string, b: string)
    requires TarName(a) == TarName(b)
    ensures a == b
  {
    assert a == TarName(a)[..|a|];
    assert b == TarName(b)[..|b|];
  }

  /** The answer of `check_project_archived`; `NoVerdict` is its falling off the end (returning `None`). */
  datatype Verdict = NotReady | Ready(adx: string) | NoVerdict

  /** The index of the first line that starts with `p`, or `|lines|` if none does. */
  function FirstIndexWithPrefix(lines: seq<string>, p: string): (j: nat)
    ensures j <= |lines|
    ensures forall k | 0 <= k < j :: !StartsWith(lines[k], p)
    ensures j < |lines| ==> StartsWith(lines[j], p)
    decreases |lines|
  {
    if lines == [] then 0
    else if StartsWith(lines[0], p) then 0
    else 1 + FirstIndexWithPrefix(lines[1..], p)
  }

  /** `line.split("_", 1)[0]`: the text before the first underscore. */
  function AdxName(line: string): string {
    Split(line, '_')[0]
  }

  /** The first piece of a split is a prefix that stops at the first separator. */
  lemma {:induction false} SplitHeadIsPrefix(s: string, sep: char)
    ensures var h := Split(s, sep)[0]; |h| <= |s| && s[..|h|] == h && (|h| < |s| ==> s[|h|] == sep)
    decreases |s|
  {
    if s != [] && s[0] != sep {
      SplitHeadIsPrefix(s[1..], sep);
    }
  }

  /**
   * The name taken from a line starting with `ADX` starts with `ADX` itself,
   * has no underscore, and is a prefix of the line.
   */
  lemma AdxNameOfAdxLine(line: string)
    requires StartsWith(line, "ADX")
    ensures StartsWith(AdxName(line), "ADX")
    ensures '_' !in AdxName(line)
    ensures StartsWith(line, AdxName(line))
  {
    var h := AdxName(line);
    SplitHeadIsPrefix(line, '_');
    assert h in Split(line, '_');
    assert h[..3] == line[..3];
  }

  /**
   * What `check_project_archived` answers for the `ls` output `listing` of
   * project `id`: the first line decides readiness. When it is not the
   * marker the answer is "not ready"; when it is, the first `ADX` line gives
   * the name. With no `ADX` line the loop moves on and compares the later
   * lines with the marker: it answers "not ready" at the first line that is
   * not the marker, and returns nothing when every line is the marker.
   */
  function MarkerVerdict(id: string, listing: string): Verdict {
    var entries := Split(listing, '\n');
    var j := FirstIndexWithPrefix(entries, "ADX");
    if entries[0] != TarName(id) then NotReady
    else if j < |entries| then Ready(AdxName(entries[j]))
    else if forall k | 0 <= k < |entries| :: entries[k] == TarName(id) then NoVerdict
    else NotReady
  }

  /** The nested loops of `check_project_archived`, with their early returns. */
  method MarkerCheck(id: string, listing: string) returns (v: Verdict)
    ensures v == MarkerVerdict(id, listing)
  {
    var entries := Split(listing, '\n');
    var marker := TarName(id);
    var i := 0;
    while i < |entries|
      invariant 0 <= i <= |entries|
      invariant forall k | 0 <= k < i :: entries[k] == marker
      invariant i > 0 ==> FirstIndexWithPrefix(entries, "ADX") == |entries|
    {
      if entries[i] == marker {
        var j := 0;
        while j < |entries|
          invariant 0 <= j <= |entries|
          invariant forall k | 0 <= k < j :: !StartsWith(entries[k], "ADX")
        {
          if StartsWith(entries[j], "ADX") {
            assert FirstIndexWithPrefix(entries, "ADX") == j;
            return Ready(AdxName(entries[j]));
          }
          j := j + 1;
        }
        assert FirstIndexWithPrefix(entries, "ADX") == |entries|;
      } else {
        return NotReady;
      }
      i := i + 1;
    }
    return NoVerdict;
  }

  /**
   * The project is ready exactly when the first listing line is the marker
   * and some line starts with `ADX`; the name is then the part before the
   * first underscore of the first such line.
   */
  lemma MarkerVerdictReady(id: string, listing: string)
    ensures var entries := Split(listing, '\n');
            var j := FirstIndexWithPrefix(entries, "ADX");
            && (MarkerVerdict(id, listing).Ready? <==> entries[0] == TarName(id) && j < |entries|)
            && (MarkerVerdict(id, listing).Ready? ==>
                  && MarkerVerdict(id, listing).adx == AdxName(entries[j])
                  && StartsWith(MarkerVerdict(id, listing).adx, "ADX")
                  && '_' !in MarkerVerdict(id, listing).adx)
  {
    var entries := Split(listing, '\n');
    var j := FirstIndexWithPrefix(entries, "ADX");
    if j < |entries| {
      AdxNameOfAdxLine(entries[j]);
    }
  }

  /**
   * `ls` output ends in a newline, so its last line is empty and is not the
   * marker: for such output `check_project_archived` always returns a verdict.
   */
  lemma TerminatedListingHasVerdict(id: string, listing: string)
    requires listing != [] && listing[|listing| - 1] == '\n'
    ensures MarkerVerdict(id, listing) != NoVerdict
  {
    var entries := Split(listing, '\n');
    SplitTrailingSeparator(listing, '\n');
    assert entries[|entries| - 1] != TarName(id);
  }

  /**
   * A listing whose first line is the marker and whose second line is a file
   * `<adx>_<rest>` gives the name `<adx>`; e.g. `4767.tar.gz` followed by
   * `ADX21030_R1.fastq.gz` gives `ADX21030`.
   */
  lemma MarkerFirstGivesName(id: string, adx: string, rest: string)
    requires '\n' !in id && !StartsWith(TarName(id), "ADX")
    requires StartsWith(adx, "ADX") && '_' !in adx && '\n' !in adx && '\n' !in rest
    ensures MarkerVerdict(id, TarName(id) + "\n" + adx + "_" + rest + "\n") == Ready(adx)
  {
    var fastq := adx + "_" + rest;
    var listing := TarName(id) + "\n" + adx + "_" + rest + "\n";
    assert '\n' !in TarName(id) && '\n' !in fastq;
    assert listing == TarName(id) + ['\n'] + (fastq + ['\n'] + []);
    SplitCons(fastq, '\n', []);
    SplitCons(TarName(id), '\n', fastq + ['\n'] + []);
    var lines := [TarName(id), fastq, ""];
    assert Split(listing, '\n') == lines;
    assert StartsWith(fastq, "ADX") by { assert fastq[..3] == adx[..3]; }
    assert FirstIndexWithPrefix(lines, "ADX") == 1;
    assert fastq == adx + ['_'] + rest;
    SplitCons(adx, '_', rest);
  }

  /**
   * Only the first line is looked at for the marker: when it is not the
   * marker the project is not ready, whatever the lines after it hold.
   */
  lemma FirstLineNotMarkerIsNotReady(id: string, first: string, rest: string)
    requires '\n' !in first && first != TarName(id)
    ensures MarkerVerdict(id, first + "\n" + rest) == NotReady
  {
    assert first + "\n" + rest == first + ['\n'] + rest;
    SplitCons(first, '\n', rest);
  }

  /**
   * So a marker on any line but the first is not seen; e.g. for
   * `ADX21030_R1.fastq.gz` followed by `4767.tar.gz` on the second line.
   */
  lemma MarkerLaterIsMissed(id: string, first: string, rest: string)
    requires '\n' !in first && first != TarName(id)
    ensures MarkerVerdict(id, first + "\n" + TarName(id) + "\n" + rest) == NotReady
  {
    assert first + "\n" + TarName(id) + "\n" + rest == first + "\n" + (TarName(id) + "\n" + rest);
    FirstLineNotMarkerIsNotReady(id, first, TarName(id) + "\n" + rest);
  }

  /**
   * With no `ADX` line, later lines are compared with the marker too: a
   * listing made of the marker twice, without a final newline, gets no
   * verdict at all.
   */
  lemma MarkerOnlyListingHasNoVerdict(id: string)
    requires '\n' !in id && !StartsWith(TarName(id), "ADX")
    ensures MarkerVerdict(id, TarName(id) + "\n" + TarName(id)) == NoVerdict
  {
    var marker := TarName(id);
    assert '\n' !in marker;
    assert marker + "\n" + marker == marker + ['\n'] + marker;
    SplitWithoutSeparator(marker, '\n');
    SplitCons(marker, '\n', marker);
    var entries := [marker, marker];
    assert Split(marker + "\n" + marker, '\n') == entries;
    assert FirstIndexWithPrefix(entries, "ADX") == 2 by {
      assert FirstIndexWithPrefix(entries[1..], "ADX") == 1 by {
        assert entries[1..][1..] == [];
      }
    }
  }

  // ---------------------------------------------------------------------------
  // Exit status reported on stdout: `success_in_stdout`

  /**
   * `success_in_stdout(stdout, expected)`: true when `expected` is non-empty
   * and occurs in `stdout`; otherwise Python returns `None`, which is false here.
   */
  predicate SuccessInStdout(stdout: string, expected: string) {
    expected != [] && Contains(stdout, expected)
  }

  /** The test applied to `...; echo $?` output: `success_in_stdout(out.rstrip(), "0")`. */
  predicate ExitStatusZero(out: string) {
    SuccessInStdout(RStrip(out), "0")
  }

  /** The exit-status test accepts any output that contains the digit 0 anywhere. */
  lemma ExitStatusZeroIsDigitSearch(out: string)
    ensures ExitStatusZero(out) <==> '0' in out
  {
    ContainsChar(RStrip(out), '0');
    RStripKeepsNonSpace(out, '0');
  }

  /** So an exit status of 10 passes as success, while 1 and empty output fail. */
  lemma ExitStatusTenPasses()
    ensures ExitStatusZero("0\n") && ExitStatusZero("10\n")
    ensures !ExitStatusZero("1\n") && !ExitStatusZero("")
  {
    ExitStatusZeroIsDigitSearch("0\n");
    ExitStatusZeroIsDigitSearch("10\n");
    ExitStatusZeroIsDigitSearch("1\n");
    ExitStatusZeroIsDigitSearch("");
  }

  // ---------------------------------------------------------------------------
  // The destination project: `find_DNAnexus_project`

  /**
   * What `find_DNAnexus_project` returns: a (project id, project name) pair,
   * which is `("fail", "fail")` unless the output is one line; or the
   * `ValueError` raised when that line does not have exactly four
   * space-separated fields.
   */
  datatype Lookup = Match(projectId: string, projectName: string) | UnpackError

  function DestinationLookup(out: string): Lookup {
    var lines := Split(out, '\n');
    if |lines| != 2 then Match("fail", "fail")
    else
      var fields := Split(lines[0], ' ');
      if |fields| != 4 then UnpackError else Match(fields[0], fields[2])
  }

  /** `go()` carries on only when the returned project id is longer than four characters. */
  predicate DestinationFound(l: Lookup) {
    l.Match? && |l.projectId| > 4
  }

  /**
   * A destination is found only when the output holds exactly one newline;
   * any other output (no match, or two or more matches) is `("fail", "fail")`,
   * which stops the project.
   */
  lemma DestinationNeedsOneLine(out: string)
    ensures DestinationFound(DestinationLookup(out)) ==> multiset(out)['\n'] == 1
    ensures multiset(out)['\n'] != 1 ==> DestinationLookup(out) == Match("fail", "fail")
    ensures !DestinationFound(Match("fail", "fail"))
  {
    SplitCount(out, '\n');
  }

  /**
   * The lookup reads back the id and the name from a `dx find projects` line
   * `<id> : <name> <access>` followed by a newline.
   */
  lemma DestinationLookupRoundTrip(pid: string, name: string, access: string)
    requires ' ' !in pid && ' ' !in name && ' ' !in access
    requires '\n' !in pid && '\n' !in name && '\n' !in access
    ensures DestinationLookup(pid + " : " + name + " " + access + "\n") == Match(pid, name)
  {
    var line := pid + " : " + name + " " + access;
    var out := line + "\n";
    assert line == pid + [' '] + (":" + [' '] + (name + [' '] + access));
    SplitWithoutSeparator(access, ' ');
    SplitCons(name, ' ', access);
    SplitCons(":", ' ', name + [' '] + access);
    SplitCons(pid, ' ', ":" + [' '] + (name + [' '] + access));
    assert Split(line, ' ') == [pid, ":", name, access];
    assert '\n' !in line;
    assert out == line + ['\n'] + [];
    SplitCons(line, '\n', []);
  }

  /** Two matching projects (two lines of output) stop the project. */
  lemma TwoDestinationsFail(a: string, b: string)
    requires '\n' !in a && '\n' !in b
    ensures DestinationLookup(a + "\n" + b + "\n") == Match("fail", "fail")
  {
    assert a + "\n" + b + "\n" == a + ['\n'] + (b + ['\n'] + []);
    SplitCons(b, '\n', []);
    SplitCons(a, '\n', b + ['\n'] + []);
  }

  // ---------------------------------------------------------------------------
  // Uploads and deletions

  /** `upload_to_dnanexus` succeeds when the upload agent prints a file id first. */
  predicate UploadSucceeded(out: string) {
    StartsWith(out, "file-")
  }

  /** The upload agent's file id is a success; an error message is not. */
  lemma UploadOutcomes()
    ensures UploadSucceeded("file-xyz123")
    ensures !UploadSucceeded("error: disk full")
  {
    assert "file-xyz123"[..5] == "file-";
    assert "error: disk full"[..5][0] != "file-"[0];
  }

  /** `tar` (stderr joined to stdout) succeeds when it prints nothing; the two `rm` commands when they print nothing on stdout. */
  predicate NoOutput(out: string) {
    out == []
  }
}
