/**
  `run_pylint(file_path)`: the early returns, the score read from the
  "rated at" line, and the count of issue lines in pylint's report.

  The subprocess is a function from the argument list to its outcome and
  `os.path.isfile` is a parameter. The score is the exact decimal value of the
  matched token.
 */
module PylintTool {
  import opened Wrappers
  import opened Strings
  import opened Sequences
  import opened Process

  /** The dictionary `run_pylint` returns. */
  datatype PylintResult = PylintResult(score: real, returncode: int, stdout: string, stderr: string, issuesCount: nat)

  /** The result together with the argument list, `None` when pylint was not started. */
  datatype Report = Report(invoked: Option<seq<string>>, result: PylintResult)

  predicate IsDigit(c: char) { '0' <= c <= '9' }

  predicate AllDigits(s: string)
  {
    forall k :: 0 <= k < |s| ==> IsDigit(s[k])
  }

  /** Length of the run of digits starting at `i`. */
  function DigitRun(s: string, i: nat): (n: nat)
    requires i <= |s|
    decreases |s| - i
    ensures i + n <= |s|
    ensures AllDigits(s[i..i + n])
    ensures i + n < |s| ==> !IsDigit(s[i + n])
  {
    if i == |s| || !IsDigit(s[i]) then 0
    else
      var n := DigitRun(s, i + 1);
      assert s[i..i + 1 + n] == [s[i]] + s[i + 1..i + 1 + n];
      1 + n
  }

  /** A match of `-?[0-9]+\.[0-9]+`: its sign, its two digit runs and where it ends. */
  datatype Number = Number(negative: bool, intPart: string, fracPart: string, end: nat)

  /** The text of a number match. */
  function Text(n: Number): string
  {
    (if n.negative then "-" else "") + n.intPart + "." + n.fracPart
  }

  /** The match of `-?[0-9]+\.[0-9]+` that starts at `q`, with both digit runs as long as possible. */
  function NumberAt(s: string, q: nat): (r: Option<Number>)
    requires q <= |s|
    ensures r.Some? ==>
      && q < r.value.end <= |s|
      && s[q..r.value.end] == Text(r.value)
      && r.value.intPart != "" && AllDigits(r.value.intPart)
      && r.value.fracPart != "" && AllDigits(r.value.fracPart)
      && (r.value.end < |s| ==> !IsDigit(s[r.value.end]))
  {
    var a := if q < |s| && s[q] == '-' then q + 1 else q;
    var n1 := DigitRun(s, a);
    if n1 == 0 || a + n1 == |s| || s[a + n1] != '.' then None
    else
      var b := a + n1;
      var n2 := DigitRun(s, b + 1);
      if n2 == 0 then None
      else
        var end := b + 1 + n2;
        NumberText(s, q, a, b, end);
        Some(Number(a == q + 1, s[a..b], s[b + 1..end], end))
  }

  /** The slice from `q` to `c` is the text of the number with an optional sign before `a` and the point at `b`. */
  lemma NumberText(s: string, q: nat, a: nat, b: nat, c: nat)
    requires q <= a <= q + 1 && a <= b < c <= |s| && s[b] == '.'
    requires a == q + 1 ==> s[q] == '-'
    ensures s[q..c] == Text(Number(a == q + 1, s[a..b], s[b + 1..c], c))
  {
    assert s[q..c] == s[q..a] + s[a..b] + [s[b]] + s[b + 1..c];
    assert s[q..a] == if a == q + 1 then "-" else "";
  }

  const RatedAt := "rated at "

  /** `rated at (-?[0-9]+\.[0-9]+)` matches at `k`. */
  predicate MatchesAt(s: string, k: nat)
  {
    OccursAt(s, RatedAt, k) && NumberAt(s, k + |RatedAt|).Some?
  }

  /** `re.search(r"rated at (-?[0-9]+\.[0-9]+)", s)` from position `p`: where the leftmost match starts. */
  function ScoreMatch(s: string, p: nat): (r: Option<nat>)
    requires p <= |s|
    decreases |s| - p
    ensures r.Some? ==> p <= r.value && MatchesAt(s, r.value)
  {
    if p + |RatedAt| > |s| then None
    else if MatchesAt(s, p) then Some(p)
    else ScoreMatch(s, p + 1)
  }

  /** The number captured by the first match of the score pattern in `stdout`. */
  function ScoreNumber(stdout: string): Option<Number>
  {
    match ScoreMatch(stdout, 0)
    case None => None
    case Some(k) => NumberAt(stdout, k + |RatedAt|)
  }

  /** The search finds a match whenever there is one, and none later than any match: it is the leftmost. */
  lemma {:induction false} ScoreMatchLeftmost(s: string, p: nat, k: nat)
    requires p <= k <= |s| && MatchesAt(s, k)
    ensures ScoreMatch(s, p).Some? && ScoreMatch(s, p).value <= k
    decreases k - p
  {
    assert p + |RatedAt| <= |s|;
    if MatchesAt(s, p) {
      assert ScoreMatch(s, p) == Some(p);
    } else {
      assert p != k;
      ScoreMatchLeftmost(s, p + 1, k);
      assert ScoreMatch(s, p) == ScoreMatch(s, p + 1);
    }
  }

  /** Value of a run of decimal digits. */
  function DigitsValue(d: string): int
  {
    if |d| == 0 then 0 else 10 * DigitsValue(d[..|d| - 1]) + (d[|d| - 1] as int - '0' as int)
  }

  function Pow10(n: nat): (r: nat)
    ensures r >= 1
  {
    if n == 0 then 1 else 10 * Pow10(n - 1)
  }

  /** A run of `k` digits is worth less than `10^k`. */
  lemma {:induction false} DigitsBelowPow10(d: string)
    requires AllDigits(d)
    ensures 0 <= DigitsValue(d) < Pow10(|d|)
  {
    if |d| > 0 {
      DigitsBelowPow10(d[..|d| - 1]);
    }
  }

  /** The exact value of a number match (`float` rounding is not modelled). */
  function Value(n: Number): real
  {
    var magnitude := DigitsValue(n.intPart) as real + DigitsValue(n.fracPart) as real / Pow10(|n.fracPart|) as real;
    if n.negative then -magnitude else magnitude
  }

  /** The score: the value of the first match, 0.0 without one. */
  function Score(stdout: string): real
  {
    match ScoreNumber(stdout)
    case None => 0.0
    case Some(n) => Value(n)
  }

  lemma FractionBelowOne(f: int, q: int)
    requires 0 <= f < q
    ensures 0.0 <= f as real / q as real < 1.0
  {
    var x := f as real / q as real;
    assert x * q as real == f as real;
  }

  /**
    The score's integer part is the digits before the point: a positive score lies
    in `[i, i + 1)` and a negative one in `(-i - 1, -i]`.
   */
  lemma ScoreBetween(stdout: string)
    requires ScoreNumber(stdout).Some?
    ensures var n := ScoreNumber(stdout).value;
      var i := DigitsValue(n.intPart) as real;
      && (!n.negative ==> i <= Score(stdout) < i + 1.0)
      && (n.negative ==> -i - 1.0 < Score(stdout) <= -i)
  {
    var n := ScoreNumber(stdout).value;
    DigitsBelowPow10(n.fracPart);
    FractionBelowOne(DigitsValue(n.fracPart), Pow10(|n.fracPart|));
  }

  /** An issue line once stripped: non-empty, not the "Your code" line, with a ':' and a category letter. */
  predicate IsIssue(line: string)
  {
    var l := Strip(line);
    && l != ""
    && !StartsWith(l, "Your code")
    && ':' in l
    && ('C' in l || 'W' in l || 'E' in l || 'F' in l || 'R' in l)
  }

  /** The lines of the stripped report. */
  function ReportLines(stdout: string): seq<string>
  {
    Split(Strip(stdout), '\n')
  }

  /** Number of issue lines in the report. */
  function IssueCount(stdout: string): nat
  {
    |Filter(ReportLines(stdout), IsIssue)|
  }

  /** The counting loop over the report lines. */
  method CountIssueLines(lines: seq<string>) returns (issuesCount: nat)
    ensures issuesCount == |Filter(lines, IsIssue)|
  {
    issuesCount := 0;
    var i := 0;
    while i < |lines|
      invariant i <= |lines|
      invariant issuesCount == |Filter(lines[..i], IsIssue)|
    {
      FilterCountStep(lines, i, IsIssue);
      if IsIssue(lines[i]) {
        issuesCount := issuesCount + 1;
      }
      i := i + 1;
    }
    assert lines[..i] == lines;
  }

  /** The number of issue lines in pylint's report. */
  method CountIssues(stdout: string) returns (issuesCount: nat)
    ensures issuesCount == IssueCount(stdout)
  {
    var lines := Split(Strip(stdout), '\n');
    issuesCount := CountIssueLines(lines);
  }

  /** The count never exceeds the number of report lines, and a blank report has none. */
  lemma IssueCountBounds(stdout: string)
    ensures IssueCount(stdout) <= |ReportLines(stdout)|
    ensures AllSpace(stdout) ==> IssueCount(stdout) == 0
  {
    if AllSpace(stdout) {
      assert ReportLines(stdout) == [""];
      assert !IsIssue("");
      assert Filter([""], IsIssue) == [];
    }
  }

  /** The "Your code has been rated at" summary line is never counted. */
  lemma RatingLineNotIssue(rest: string)
    ensures !IsIssue("Your code" + rest)
  {
    var line := "Your code" + rest;
    var r := Strip(line);
    assert LeadingSpace(line) == 0 by { assert !IsSpace(line[0]); }
    assert |r| >= 9 by {
      assert line[8] == 'e';
      assert AllSpace(line[|r|..]);
    }
    assert r[..9] == line[..9];
  }

  /** The record of an early return (score 0.0, no issues). */
  function Early(returncode: int, stderr: string): (r: PylintResult)
    ensures r.score == 0.0 && r.issuesCount == 0 && r.returncode == returncode && r.stdout == ""
  {
    PylintResult(0.0, returncode, "", stderr, 0)
  }

  /** `run_pylint(file_path)` */
  method RunPylint(filePath: string, isFile: string -> bool, python: string,
                   run: seq<string> -> Outcome) returns (r: Report)
    ensures !isFile(filePath) ==>
      r == Report(None, Early(-1, "Erreur : le fichier '" + filePath + "' n'existe pas !"))
    ensures isFile(filePath) && !EndsWith(filePath, ".py") ==>
      r == Report(None, Early(-1, "Erreur : '" + filePath + "' n'est pas un fichier Python !"))
    ensures isFile(filePath) && EndsWith(filePath, ".py") ==>
      var args := [python, "-m", "pylint", filePath];
      && r.invoked == Some(args)
      && (run(args).TimedOut? ==> r.result == Early(-2, "Erreur: pylint a depacé le délai !"))
      && (run(args).Raised? ==>
            r.result == Early(-3, "Erreur: Erreur inattendue : " + run(args).message + " !"))
      && (run(args).Completed? ==>
            r.result == PylintResult(Score(run(args).stdout), run(args).returncode, run(args).stdout,
                                     run(args).stderr, IssueCount(run(args).stdout)))
  {
    if !isFile(filePath) {
      return Report(None, Early(-1, "Erreur : le fichier '" + filePath + "' n'existe pas !"));
    }
    if !EndsWith(filePath, ".py") {
      return Report(None, Early(-1, "Erreur : '" + filePath + "' n'est pas un fichier Python !"));
    }
    var args := [python, "-m", "pylint", filePath];
    match run(args)
    case TimedOut =>
      return Report(Some(args), Early(-2, "Erreur: pylint a depacé le délai !"));
    case Raised(message) =>
      return Report(Some(args), Early(-3, "Erreur: Erreur inattendue : " + message + " !"));
    case Completed(returncode, stdout, stderr) =>
      var score := Score(stdout);
      var issuesCount := CountIssues(stdout);
      r := Report(Some(args), PylintResult(score, returncode, stdout, stderr, issuesCount));
  }

  /** A missing file reports score 0.0, no issues, and a message containing "n'existe pas". */
  lemma MissingFileMessage(filePath: string)
    ensures var r := Early(-1, "Erreur : le fichier '" + filePath + "' n'existe pas !");
      r.score == 0.0 && r.issuesCount == 0 && Contains(r.stderr, "n'existe pas")
  {
    var a := "Erreur : le fichier '" + filePath;
    var b := "' n'existe pas !";
    var m := a + b;
    assert "Erreur : le fichier '" + filePath + "' n'existe pas !" == m;
    var i := |a| + 2;
    assert m[i..i + 12] == "n'existe pas" by {
      assert m[|a|..] == b;
      assert m[i..i + 12] == b[2..14];
    }
    ContainsAt(m, "n'existe pas", i);
  }
}
