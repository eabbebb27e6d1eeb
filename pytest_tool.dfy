/**
  The two test-runner wrappers: `run_pytest(file_list, project_root)` in
  `pytest_tool.py` and the single-path `run_pytest(target_dir, project_root)`
  in `pytesst_tool.py`. Both share the analysis of a finished run.

  The subprocess is a function from the invocation (arguments and environment)
  to its outcome; `os.path.exists` and `os.path.abspath` are parameters too.
 */
module PytestTool {
  import opened Wrappers
  import opened Strings
  import opened Sequences
  import opened Process
  import Paths

  /** The argument list and environment pytest is started with. */
  datatype Invocation = Invocation(args: seq<string>, env: map<string, string>)

  /** The dictionary both wrappers return. */
  datatype PytestResult = PytestResult(
    returncode: int, stdout: string, stderr: string, testPassed: bool, errorSummary: string)

  /** The result together with the invocation, `None` when pytest was not started. */
  datatype Report = Report(invoked: Option<Invocation>, result: PytestResult)

  const Header := "===== FAILURES ====="
  const Stop := "====="
  const ShortSummary := "=== short test summary info ==="

  predicate IsHeader(line: string) { Contains(line, Header) }

  /** A line that ends the failure section (a header line is skipped, not a stop). */
  predicate IsStop(line: string)
  {
    !IsHeader(line) && (Contains(line, Stop) || Contains(line, ShortSummary))
  }

  /** A line the failure section keeps: not a header, and non-empty once stripped. */
  predicate Kept(line: string) { !IsHeader(line) && !AllSpace(line) }

  /**
    The failure section of a list of lines: the lines after the first header,
    up to the first stop line, without blank and header lines.
   */
  function FailureLines(lines: seq<string>): seq<string>
  {
    var h := FirstIndex(lines, IsHeader);
    if h == |lines| then []
    else
      var rest := lines[h + 1..];
      Filter(rest[..FirstIndex(rest, IsStop)], Kept)
  }

  /** Every kept line is a non-blank line of the input without any `=====` or summary marker in it. */
  lemma FailureLinesShape(lines: seq<string>)
    ensures forall k :: 0 <= k < |FailureLines(lines)| ==>
      var line := FailureLines(lines)[k];
      && line in lines && Strip(line) != ""
      && !Contains(line, Stop) && !Contains(line, ShortSummary)
  {
    var h := FirstIndex(lines, IsHeader);
    if h < |lines| {
      var rest := lines[h + 1..];
      var section := rest[..FirstIndex(rest, IsStop)];
      var r := Filter(section, Kept);
      FilterSubset(section, Kept);
      FilterKeeps(section, Kept);
      forall k | 0 <= k < |r|
        ensures r[k] in lines && !Contains(r[k], Stop) && !Contains(r[k], ShortSummary)
      {
        var j :| 0 <= j < |section| && section[j] == r[k];
        assert !IsStop(rest[j]);
        assert lines[h + 1 + j] == r[k];
      }
    }
  }

  /**
    What the scan knows after `i` lines: outside the section nothing is kept and
    no header was seen; inside it, `h` is the first header, no stop line has
    followed, and `acc` holds the kept lines after `h`.
   */
  ghost predicate Scanned(lines: seq<string>, i: nat, inFailures: bool, h: nat, acc: seq<string>)
  {
    && i <= |lines|
    && (!inFailures ==> acc == [] && forall j :: 0 <= j < i ==> !IsHeader(lines[j]))
    && (inFailures ==>
          && h < i && IsHeader(lines[h]) && (forall j :: 0 <= j < h ==> !IsHeader(lines[j]))
          && (forall j :: h < j < i ==> !IsStop(lines[j]))
          && acc == Filter(lines[h + 1..i], Kept))
  }

  lemma ScanHeader(lines: seq<string>, i: nat, inFailures: bool, h: nat, acc: seq<string>, h': nat)
    requires Scanned(lines, i, inFailures, h, acc) && i < |lines| && IsHeader(lines[i])
    requires h' == if inFailures then h else i
    ensures Scanned(lines, i + 1, true, h', acc)
  {
    if inFailures {
      FilterSnoc(lines[h + 1..i], lines[i], Kept);
      SliceSnoc(lines, h + 1, i);
    } else {
      assert lines[i + 1..i + 1] == [];
    }
  }

  lemma ScanOther(lines: seq<string>, i: nat, inFailures: bool, h: nat, acc: seq<string>, acc': seq<string>)
    requires Scanned(lines, i, inFailures, h, acc) && i < |lines| && !IsHeader(lines[i])
    requires inFailures ==> !IsStop(lines[i])
    requires acc' == if inFailures && !AllSpace(lines[i]) then acc + [lines[i]] else acc
    ensures Scanned(lines, i + 1, inFailures, h, acc')
  {
    if inFailures {
      SliceSnoc(lines, h + 1, i);
      FilterSnoc(lines[h + 1..i], lines[i], Kept);
      assert Kept(lines[i]) == !AllSpace(lines[i]);
      assert acc' == Filter(lines[h + 1..i + 1], Kept);
      assert forall j :: h < j < i + 1 ==> !IsStop(lines[j]);
    } else {
      assert forall j :: 0 <= j < i + 1 ==> !IsHeader(lines[j]);
    }
  }

  lemma ScanStop(lines: seq<string>, i: nat, h: nat, acc: seq<string>)
    requires Scanned(lines, i, true, h, acc) && i < |lines| && IsStop(lines[i])
    ensures acc == FailureLines(lines)
  {
    var rest := lines[h + 1..];
    FirstIndexAt(lines, IsHeader, h);
    FirstStopAfter(lines, h, i);
    assert rest[..i - h - 1] == lines[h + 1..i];
  }

  /** The first stop line after the header at `h` is the one at `i`. */
  lemma FirstStopAfter(lines: seq<string>, h: nat, i: nat)
    requires h < i < |lines| && IsStop(lines[i])
    requires forall j :: h < j < i ==> !IsStop(lines[j])
    ensures FirstIndex(lines[h + 1..], IsStop) == i - h - 1
  {
    var rest := lines[h + 1..];
    forall j | 0 <= j < i - h - 1 ensures !IsStop(rest[j]) {
      assert rest[j] == lines[h + 1 + j];
    }
    assert rest[i - h - 1] == lines[i];
    FirstIndexAt(rest, IsStop, i - h - 1);
  }

  lemma ScanEnd(lines: seq<string>, inFailures: bool, h: nat, acc: seq<string>)
    requires Scanned(lines, |lines|, inFailures, h, acc)
    ensures acc == FailureLines(lines)
  {
    if inFailures {
      var rest := lines[h + 1..];
      FirstIndexAt(lines, IsHeader, h);
      forall j | 0 <= j < |rest| ensures !IsStop(rest[j]) {
        assert rest[j] == lines[h + 1 + j];
      }
      FirstIndexAt(rest, IsStop, |rest|);
      assert rest[..|rest|] == lines[h + 1..|lines|];
    } else {
      FirstIndexAt(lines, IsHeader, |lines|);
    }
  }

  /** The `in_failures` scan over the lines of stdout. */
  method ExtractFailureLines(lines: seq<string>) returns (failureLines: seq<string>)
    ensures failureLines == FailureLines(lines)
  {
    var inFailures := false;
    failureLines := [];
    ghost var h := 0;
    var i := 0;
    while i < |lines|
      invariant Scanned(lines, i, inFailures, h, failureLines)
    {
      var line := lines[i];
      if IsHeader(line) {
        ghost var h0 := h;
        if !inFailures {
          h := i;
        }
        ScanHeader(lines, i, inFailures, h0, failureLines, h);
        inFailures := true;
        i := i + 1;
        continue;
      }
      var stop := Contains(line, Stop) || Contains(line, ShortSummary);
      assert stop == IsStop(line);
      if inFailures && stop {
        ScanStop(lines, i, h, failureLines);
        break;
      }
      var kept := Strip(line) != "";
      assert kept == !AllSpace(line);
      ghost var acc0 := failureLines;
      if inFailures && kept {
        failureLines := failureLines + [line];
      }
      ScanOther(lines, i, inFailures, h, acc0, failureLines);
      i := i + 1;
    }
    if i == |lines| {
      ScanEnd(lines, inFailures, h, failureLines);
    }
  }

  /** Summary taken from the FAILURES section, "" when stdout has none. */
  function FailureSummary(stdout: string): string
  {
    if Contains(stdout, Header) then Join(FailureLines(Split(stdout, '\n')), "\n") else ""
  }

  /** The last at most ten lines of the stripped stdout, joined again. */
  function TailSummary(stdout: string): string
  {
    var lines := Split(Strip(stdout), '\n');
    if |lines| > 0 then Join(LastN(lines, 10), "\n") else "Erreur inconnue."
  }

  /** `error_summary` for a completed run: the failure section, else stderr, else the tail of stdout. */
  function ErrorSummary(returncode: int, stdout: string, stderr: string): string
  {
    if returncode == 0 then ""
    else
      var fromFailures := FailureSummary(stdout);
      var fromStderr := if fromFailures == "" && Strip(stderr) != "" then Strip(stderr) else fromFailures;
      if fromStderr == "" then TailSummary(stdout) else fromStderr
  }

  /** The analysis of a completed run, reassigning the summary through its fallbacks. */
  method AnalyzeCompleted(returncode: int, stdout: string, stderr: string) returns (r: PytestResult)
    ensures r == PytestResult(returncode, stdout, stderr, returncode == 0, ErrorSummary(returncode, stdout, stderr))
  {
    var testPassed := returncode == 0;
    var errorSummary := "";
    if !testPassed {
      if Contains(stdout, Header) {
        var lines := Split(stdout, '\n');
        var failureLines := ExtractFailureLines(lines);
        errorSummary := Join(failureLines, "\n");
      }
      if errorSummary == "" && Strip(stderr) != "" {
        errorSummary := Strip(stderr);
      }
      if errorSummary == "" {
        var lines := Split(Strip(stdout), '\n');
        errorSummary := if |lines| > 0 then Join(LastN(lines, 10), "\n") else "Erreur inconnue.";
      }
    }
    r := PytestResult(returncode, stdout, stderr, testPassed, errorSummary);
  }

  /** A text holding the header is not blank. */
  lemma HeaderNotBlank(stdout: string)
    requires Contains(stdout, Header)
    ensures !AllSpace(stdout)
  {
    var i :| 0 <= i <= |stdout| - |Header| && OccursAt(stdout, Header, i);
    assert stdout[i] == Header[0];
  }

  /** The tail of stdout is empty exactly when stdout is blank. */
  lemma TailEmptyIff(stdout: string)
    ensures TailSummary(stdout) == "" <==> AllSpace(stdout)
  {
    var s := Strip(stdout);
    if s != "" {
      SplitLastPiece(s, '\n');
      var lines := Split(s, '\n');
      var tail := LastN(lines, 10);
      assert tail[|tail| - 1] == lines[|lines| - 1];
      JoinNonEmpty(tail, "\n");
    } else {
      assert Split(s, '\n') == [""];
    }
  }

  /** The summary is empty exactly when the tests passed or the run printed nothing but whitespace. */
  lemma SummaryEmptyIff(returncode: int, stdout: string, stderr: string)
    ensures ErrorSummary(returncode, stdout, stderr) == "" <==>
      returncode == 0 || (AllSpace(stdout) && AllSpace(stderr))
  {
    if returncode != 0 {
      TailEmptyIff(stdout);
      if AllSpace(stdout) && Contains(stdout, Header) {
        HeaderNotBlank(stdout);
      }
    }
  }

  /** Without a FAILURES section, a failed run with non-blank stderr is summarised by the stripped stderr. */
  lemma SummaryFromStderr(returncode: int, stdout: string, stderr: string)
    requires returncode != 0 && !Contains(stdout, Header) && !AllSpace(stderr)
    ensures ErrorSummary(returncode, stdout, stderr) == Strip(stderr)
  {
  }

  /** A non-empty failure section is the summary, whatever stderr says. */
  lemma SummaryFromFailures(returncode: int, stdout: string, stderr: string)
    requires returncode != 0 && Contains(stdout, Header)
    requires FailureLines(Split(stdout, '\n')) != []
    ensures ErrorSummary(returncode, stdout, stderr) == Join(FailureLines(Split(stdout, '\n')), "\n")
    ensures ErrorSummary(returncode, stdout, stderr) != ""
  {
    var fl := FailureLines(Split(stdout, '\n'));
    FailureLinesShape(Split(stdout, '\n'));
    assert Strip(fl[|fl| - 1]) != "";
    JoinNonEmpty(fl, "\n");
  }

  /**
    When neither the failure section nor stderr says anything, the summary splits
    back into the last (at most ten) lines of the stripped stdout.
   */
  lemma SummaryIsTail(returncode: int, stdout: string, stderr: string)
    requires returncode != 0 && FailureSummary(stdout) == "" && AllSpace(stderr)
    ensures Split(ErrorSummary(returncode, stdout, stderr), '\n') == LastN(Split(Strip(stdout), '\n'), 10)
    ensures |Split(ErrorSummary(returncode, stdout, stderr), '\n')| <= 10
  {
    var lines := Split(Strip(stdout), '\n');
    var tail := LastN(lines, 10);
    assert Strip(stderr) == "";
    assert ErrorSummary(returncode, stdout, stderr) == Join(tail, "\n");
    SplitPiecesLackSep(Strip(stdout), '\n');
    forall k | 0 <= k < |tail| ensures '\n' !in tail[k] {
      assert tail[k] == lines[|lines| - |tail| + k];
    }
    SplitJoin(tail, '\n');
  }

  /** `test_passed` is exactly a zero return code, and a passing run has no summary. */
  lemma PassedIff(returncode: int, stdout: string, stderr: string)
    ensures (returncode == 0) ==> ErrorSummary(returncode, stdout, stderr) == ""
    ensures returncode != 0 && !AllSpace(stdout) ==> ErrorSummary(returncode, stdout, stderr) != ""
  {
    SummaryEmptyIff(returncode, stdout, stderr);
  }

  /** The record for a path that does not exist. */
  function Missing(path: string): (r: PytestResult)
    ensures r.returncode == -1 && !r.testPassed && r.errorSummary == "Chemin introuvable."
  {
    PytestResult(-1, "", "Erreur : le chemin '" + path + "' n'existe pas.", false, "Chemin introuvable.")
  }

  /** The record for a run that exceeded the thirty-second timeout. */
  const Timeout := PytestResult(-2, "", "Erreur : pytest a dépassé le délai de 30 secondes.", false,
    "Timeout lors de l'exécution des tests.")

  /** The record for any other exception raised while starting or running pytest. */
  function Unexpected(message: string): (r: PytestResult)
    ensures r.returncode == -3 && !r.testPassed
  {
    PytestResult(-3, "", "Erreur inattendue : " + message, false, "Exception système : " + message)
  }

  /** `env["PYTHONPATH"] = f"{project_root}{os.pathsep}{current}"` on a copy of the environment. */
  function WithRoot(env: map<string, string>, root: string): (r: map<string, string>)
    ensures "PYTHONPATH" in r
    ensures r["PYTHONPATH"] == root + [Paths.PathSep] + (if "PYTHONPATH" in env then env["PYTHONPATH"] else "")
    ensures forall k :: k in env && k != "PYTHONPATH" ==> k in r && r[k] == env[k]
    ensures r.Keys == env.Keys + {"PYTHONPATH"}
  {
    var current := if "PYTHONPATH" in env then env["PYTHONPATH"] else "";
    env["PYTHONPATH" := root + [Paths.PathSep] + current]
  }

  /**
    The record for each outcome of the subprocess: the timeout and exception
    records, or the analysis of a completed run with its streams passed through.
   */
  function Record(o: Outcome): (r: PytestResult)
    ensures r.testPassed <==> o.Completed? && o.returncode == 0
    ensures o.Completed? ==> r.returncode == o.returncode && r.stdout == o.stdout && r.stderr == o.stderr
    ensures !o.Completed? ==> r.stdout == "" && r.returncode < 0
    ensures r.errorSummary == "" <==> o.Completed? && (o.returncode == 0 || (AllSpace(o.stdout) && AllSpace(o.stderr)))
  {
    match o
    case TimedOut => Timeout
    case Raised(message) => Unexpected(message)
    case Completed(returncode, stdout, stderr) =>
      SummaryEmptyIff(returncode, stdout, stderr);
      PytestResult(returncode, stdout, stderr, returncode == 0, ErrorSummary(returncode, stdout, stderr))
  }

  /** Turns the outcome of the subprocess into the result record. */
  method Finish(outcome: Outcome) returns (r: PytestResult)
    ensures r == Record(outcome)
    ensures outcome.TimedOut? ==> r == Timeout
    ensures outcome.Raised? ==> r == Unexpected(outcome.message)
    ensures outcome.Completed? ==>
      r == PytestResult(outcome.returncode, outcome.stdout, outcome.stderr, outcome.returncode == 0,
                        ErrorSummary(outcome.returncode, outcome.stdout, outcome.stderr))
  {
    match outcome
    case TimedOut => r := Timeout;
    case Raised(message) => r := Unexpected(message);
    case Completed(returncode, stdout, stderr) => r := AnalyzeCompleted(returncode, stdout, stderr);
  }

  /** Index of the first path that does not exist, in list order. */
  function FirstMissing(files: seq<string>, pathExists: string -> bool): (r: Option<nat>)
    ensures r.Some? ==>
      && r.value < |files| && !pathExists(files[r.value])
      && forall j :: 0 <= j < r.value ==> pathExists(files[j])
    ensures r.None? ==> forall j :: 0 <= j < |files| ==> pathExists(files[j])
  {
    var i := FirstIndex(files, (f: string) => !pathExists(f));
    if i == |files| then None else Some(i)
  }

  /**
    `run_pytest(file_list, project_root)` of `pytest_tool.py`. `Failure` stands for
    the `IndexError` raised by `file_list[0]` on an empty list without a root.
   */
  method RunPytest(fileList: seq<string>, projectRoot: Option<string>, pathExists: string -> bool,
                   abspath: string -> string, env: map<string, string>, python: string,
                   run: Invocation -> Outcome) returns (r: Result<Report, string>)
    ensures FirstMissing(fileList, pathExists).Some? ==>
      r == Success(Report(None, Missing(fileList[FirstMissing(fileList, pathExists).value])))
    ensures FirstMissing(fileList, pathExists).None? && projectRoot.None? && fileList == [] ==> r.Failure?
    ensures FirstMissing(fileList, pathExists).None? && (projectRoot.Some? || fileList != []) ==>
      var root := if projectRoot.Some? then projectRoot.value else Paths.Dirname(abspath(fileList[0]));
      var inv := Invocation([python, "-m", "pytest"] + fileList + ["-v"], WithRoot(env, root));
      && r.Success? && r.value.invoked == Some(inv)
      && r.value.result == Record(run(inv))
      && (run(inv).TimedOut? ==> r.value.result.returncode == -2)
      && (run(inv).Raised? ==> r.value.result.returncode == -3)
      && (run(inv).Completed? ==> (r.value.result.testPassed <==> run(inv).returncode == 0))
      && (run(inv).Completed? ==>
            r.value.result.errorSummary == ErrorSummary(run(inv).returncode, run(inv).stdout, run(inv).stderr))
  {
    var i := 0;
    while i < |fileList|
      invariant 0 <= i <= |fileList|
      invariant forall j :: 0 <= j < i ==> pathExists(fileList[j])
    {
      if !pathExists(fileList[i]) {
        assert FirstMissing(fileList, pathExists) == Some(i);
        return Success(Report(None, Missing(fileList[i])));
      }
      i := i + 1;
    }
    var root: string;
    if projectRoot.None? {
      if |fileList| == 0 {
        return Failure("IndexError: list index out of range");
      }
      root := Paths.Dirname(abspath(fileList[0]));
    } else {
      root := projectRoot.value;
    }
    var inv := Invocation([python, "-m", "pytest"] + fileList + ["-v"], WithRoot(env, root));
    var result := Finish(run(inv));
    r := Success(Report(Some(inv), result));
  }

  /** `run_pytest(target_dir, project_root)` of `pytesst_tool.py`: one path, default root its parent. */
  method RunPytestDir(targetDir: string, projectRoot: Option<string>, pathExists: string -> bool,
                      abspath: string -> string, env: map<string, string>, python: string,
                      run: Invocation -> Outcome) returns (r: Report)
    ensures !pathExists(targetDir) ==> r == Report(None, Missing(targetDir))
    ensures pathExists(targetDir) ==>
      var root := if projectRoot.Some? then projectRoot.value else Paths.Dirname(abspath(targetDir));
      var inv := Invocation([python, "-m", "pytest", targetDir, "-v"], WithRoot(env, root));
      && r.invoked == Some(inv)
      && r.result == Record(run(inv))
      && (run(inv).TimedOut? ==> r.result.returncode == -2)
      && (run(inv).Raised? ==> r.result.returncode == -3)
      && (run(inv).Completed? ==> (r.result.testPassed <==> run(inv).returncode == 0))
      && (run(inv).Completed? ==>
            r.result.errorSummary == ErrorSummary(run(inv).returncode, run(inv).stdout, run(inv).stderr))
  {
    if !pathExists(targetDir) {
      return Report(None, Missing(targetDir));
    }
    var root := if projectRoot.Some? then projectRoot.value else Paths.Dirname(abspath(targetDir));
    var inv := Invocation([python, "-m", "pytest", targetDir, "-v"], WithRoot(env, root));
    var result := Finish(run(inv));
    r := Report(Some(inv), result);
  }
}
