# The-Refactoring-Swarm2: tool layer, in Dafny

The agents of The-Refactoring-Swarm2 (an auditor, a fixer and a judge that
repair broken Python files) work through a small tool layer. This project
models that layer and proves properties of it:

- the sandboxed file tool (`is_path_allowed`, `read_file`, `write_file`);
- the pylint wrapper (`run_pylint`): its early returns, the score read from
  the "rated at" line, and the count of issue lines;
- the two pytest wrappers (`run_pytest` over a list of files, and the
  single-path variant in `pytesst_tool.py`): the failure-section scanner and
  the three-step choice of the error summary;
- the signature printer used as project context for the agents
  (`get_file_signatures`, `get_single_file_signature`,
  `build_project_context`);
- the dependency-aware batch scheduler (`get_imports_robust`,
  `build_sequential_batches`).

Modules, one per source file plus shared vocabulary:

| module | models |
|---|---|
| `Wrappers` | `Option` and `Result` |
| `Strings` | the parts of Python's `str` the tools use: `strip`, `split`, `join`, `in`, `startswith`, `endswith`, `<`, and universal-newline reading |
| `Sequences` | first index, filter and flat-map on sequences |
| `Paths` | `os.path.basename`, `dirname` and `join` on POSIX paths |
| `Process` | the outcome of `subprocess.run` with a timeout |
| `FileTool` | `src/utils/file_tool.py`; the file system is a class with a `files` map that `WriteFile` updates |
| `PylintTool` | `src/utils/pylint_tool.py` |
| `PytestTool` | `src/utils/pytest_tool.py` and `src/utils/pytesst_tool.py` |
| `Context` | `src/utils/context.py` |
| `Imports` | `get_imports_robust` in `src/utils/batching.py` |
| `Batching`, `BatchingExamples` | `build_sequential_batches` in `src/utils/batching.py`, with worked schedules |

The loops of the source are methods with loop invariants, each proved equal
to a specification function. The properties are proved about those functions:
- the scheduler as written emits a partition of the files; with its cycle search corrected (see "## Findings"), the partition is also in dependency order;
- the sandbox guard only admits the directory itself and its descendants;
- a read after a write returns what was written;
- the printed signatures split back into their lines;
- the error summary is empty exactly when the run passed or printed only whitespace.

Effects are parameters:
- `subprocess.run` is a function from the invocation to an `Outcome`;
- `os.path.realpath`, `exists`, `isfile` and `abspath` are functions;
- `ast.parse` is a function from text to a parse outcome;
- reading a file is a function that may fail.

## Model

| member | source | states |
|---|---|---|
| Strings.LeadingSpace | src/utils/pylint_tool.py:81 | the count of leading whitespace is maximal: all counted characters are whitespace and the next one is not |
| Strings.TrailingSpace | src/utils/pylint_tool.py:81 | the count of trailing whitespace is maximal, symmetrically |
| Strings.Strip | src/utils/pylint_tool.py:84 | `strip()` never lengthens, and yields "" exactly when the text is all whitespace |
| Strings.StripShape | src/utils/pylint_tool.py:84 | a non-empty stripped text begins and ends with a non-space and is the slice after the leading whitespace, followed only by whitespace |
| Strings.Split | src/utils/pytest_tool.py:69 | `split(sep)` always yields at least one piece |
| Strings.JoinSplit | src/utils/pytest_tool.py:69-80 | joining the pieces of a split with the same separator gives back the text |
| Strings.SplitPiecesLackSep | src/utils/pytest_tool.py:69 | no piece of a split contains the separator |
| Strings.SplitLastPiece | src/utils/pytest_tool.py:88-89 | a text not ending in the separator has a non-empty last piece |
| Strings.SplitNoSep | src/utils/context.py:64 | a text without the separator splits into itself |
| Strings.SplitAfterPiece | src/utils/context.py:64 | a separator after a separator-free prefix closes the first piece |
| Strings.SplitJoin | src/utils/context.py:64 | joining separator-free pieces and splitting again returns the pieces |
| Strings.JoinLacks | src/utils/context.py:64 | a character absent from every part and from the separator is absent from the join |
| Strings.LastN | src/utils/pytest_tool.py:89 | `lines[-10:]` has length min(len, 10) and is the suffix of that length |
| Strings.JoinNonEmpty | src/utils/pytest_tool.py:89 | a join whose last part is non-empty is non-empty |
| Strings.ContainsChar | src/utils/pylint_tool.py:85 | the substring test with a one-character needle is membership of that character |
| Strings.ContainsAt | src/utils/pytest_tool.py:68 | an occurrence at an index makes the substring test true |
| Strings.LexLessIrreflexive | src/utils/batching.py:93 | the string order used by `sort()` is irreflexive |
| Strings.LexLessTotal | src/utils/batching.py:93 | the string order is total on distinct strings |
| Strings.LexLessTransitive | src/utils/batching.py:93 | the string order is transitive |
| Strings.LexLessAsymmetric | src/utils/batching.py:93 | the string order is asymmetric |
| Strings.UniversalNewlines | src/utils/file_tool.py:32-33 | reading in text mode leaves no carriage return, and leaves text without one unchanged |
| Sequences.FirstIndex | src/utils/pytest_tool.py:14-15 | the index returned is the first element satisfying the predicate, or the length when none does |
| Sequences.Filter | src/utils/pylint_tool.py:83-90 | filtering never lengthens |
| Sequences.FilterKeeps | src/utils/pylint_tool.py:85 | every kept element satisfies the predicate |
| Sequences.FilterSubset | src/utils/pylint_tool.py:83 | every kept element comes from the input |
| Sequences.FilterSnoc | src/utils/pylint_tool.py:83-90 | filtering a list extended by one element extends the result by that element exactly when it passes |
| Sequences.FilterCountStep | src/utils/pylint_tool.py:90 | one loop step adds one to the count exactly when the line passes |
| Sequences.FlatMapSnoc | src/utils/context.py:26-62 | flattening a list extended by one element appends that element's lines |
| Sequences.FlatMapAll | src/utils/context.py:26-62 | a property of every produced line holds of the whole flattened list |
| Sequences.FlatMapNone | src/utils/context.py:26-62 | items that each produce nothing flatten to nothing |
| Paths.AfterLastSep | src/utils/context.py:79 | the index just after the last separator; nothing after it is a separator |
| Paths.Basename | src/utils/context.py:79 | `os.path.basename` contains no separator and is no longer than the path |
| Paths.BasenameSuffix | src/utils/batching.py:67 | the basename is a suffix of the path, preceded by a separator when shorter |
| Paths.RStripSep | src/utils/pytest_tool.py:27 | the head of the path with trailing separators removed |
| Paths.BasenameOfJoin | src/utils/file_tool.py:23 | the basename of `join(dir, name)` is `name` for a plain name |
| Paths.DirnameOfJoin | src/utils/file_tool.py:44 | the dirname of `join(dir, name)` is `dir` for a plain name and a dir without a trailing separator |
| FileTool.WithinIff | src/utils/file_tool.py:14 | the guard admits a path exactly when the directory is a prefix ending at the path's end or at a separator |
| FileTool.SiblingRejected | src/utils/file_tool.py:14 | a sibling sharing the directory's name as a prefix (`/sb2` for `/sb`) is rejected |
| FileTool.DescendantsWithin | src/utils/file_tool.py:14 | the directory itself and everything below it are admitted |
| FileTool.WithinTransitive | src/utils/file_tool.py:14 | containment is transitive |
| FileTool.RootAdmitsOnlyItself | src/utils/file_tool.py:14 | with the root `/` as sandbox, the guard compares against `//` and admits only `/` itself |
| FileTool.ReadFile | src/utils/file_tool.py:19-33 | a PermissionError, "Lecture interdite hors sandbox !", exactly when the joined path escapes the sandbox; a FileNotFoundError, with its message, exactly when it is allowed and absent; otherwise the stored text read with universal newlines |
| FileTool.FileSystem.constructor | src/utils/file_tool.py:37 | the file system starts with the given contents and canonicalisation |
| FileTool.FileSystem.WriteFile | src/utils/file_tool.py:37-48 | outside the sandbox: a PermissionError and no change; inside: the number of characters written, and only the written key changes |
| FileTool.ReadAfterWrite | src/utils/file_tool.py:19-48 | reading back what was written returns it (newline-translated; unchanged without carriage returns) |
| FileTool.WriteLeavesOthers | src/utils/file_tool.py:37-48 | a write leaves every read of a different canonical file unchanged |
| FileTool.SiblingExample | src/utils/file_tool.py:4-14 | `/sb2/x` is rejected and `/sb/x` admitted for the sandbox `/sb` |
| FileTool.AbsoluteNameEscapes | src/utils/file_tool.py:23-26 | an absolute file name replaces the sandbox in `join`, so `/etc/passwd` is refused |
| PylintTool.DigitRun | src/utils/pylint_tool.py:72 | the digit run at a position is maximal |
| PylintTool.NumberAt | src/utils/pylint_tool.py:72 | a match of `-?[0-9]+\.[0-9]+` at a position covers exactly the token's text, with non-empty digit parts, and is not followed by a digit |
| PylintTool.ScoreMatch | src/utils/pylint_tool.py:72 | a found position really holds "rated at " and a number |
| PylintTool.ScoreMatchLeftmost | src/utils/pylint_tool.py:72 | `re.search` finds a match whenever one exists, at or before any matching position |
| PylintTool.DigitsBelowPow10 | src/utils/pylint_tool.py:75 | a digit string of length n denotes a value below 10^n |
| PylintTool.ScoreBetween | src/utils/pylint_tool.py:71-77 | the score lies within one of the matched integer part, on the side given by its sign |
| PylintTool.CountIssueLines | src/utils/pylint_tool.py:82-90 | the loop counts exactly the issue lines |
| PylintTool.CountIssues | src/utils/pylint_tool.py:81-90 | the count over the stripped, split report equals the issue count |
| PylintTool.IssueCountBounds | src/utils/pylint_tool.py:81-90 | at most one issue per report line, and none for a blank report |
| PylintTool.RatingLineNotIssue | src/utils/pylint_tool.py:85 | the "Your code has been rated" line is never counted |
| PylintTool.Early | src/utils/pylint_tool.py:20-67 | every early return has score 0.0, no issues and empty stdout |
| PylintTool.RunPylint | src/utils/pylint_tool.py:9-98 | each branch with its return code and exact message: missing file, not `.py`, timeout, exception; a completed run yields the parsed score and the issue count |
| PylintTool.MissingFileMessage | test_pylint_tool.py:34-41 | a missing path gives score 0.0, no issues, and a message containing "n'existe pas" |
| PytestTool.FailureLinesShape | src/utils/pytest_tool.py:72-79 | every kept failure line is a line of the output, is not blank, and holds no stop marker |
| PytestTool.ScanHeader | src/utils/pytest_tool.py:73-75 | a header line enters the failure section, which starts at the first header |
| PytestTool.ScanOther | src/utils/pytest_tool.py:76-79 | a non-stop line in the section is kept exactly when non-blank; outside the section nothing is kept |
| PytestTool.ScanStop | src/utils/pytest_tool.py:76-77 | at the first stop line in the section, what was gathered is the whole failure section |
| PytestTool.ScanEnd | src/utils/pytest_tool.py:72-80 | at the end of the lines, what was gathered is the whole failure section |
| PytestTool.ExtractFailureLines | src/utils/pytest_tool.py:69-80 | the scanning loop returns exactly the failure section |
| PytestTool.AnalyzeCompleted | src/utils/pytest_tool.py:62-98 | a completed run passes exactly when its return code is 0, and its summary is the failure section, else the stripped stderr, else the tail of stdout |
| PytestTool.HeaderNotBlank | src/utils/pytest_tool.py:68 | output holding the FAILURES header is not blank |
| PytestTool.TailEmptyIff | src/utils/pytest_tool.py:87-89 | the tail summary is empty exactly when stdout is blank |
| PytestTool.SummaryEmptyIff | src/utils/pytest_tool.py:62-89 | the summary is empty exactly when the run passed or both streams are blank |
| PytestTool.SummaryFromStderr | src/utils/pytest_tool.py:83-84 | without a failure section, non-blank stderr is the summary, stripped |
| PytestTool.SummaryFromFailures | src/utils/pytest_tool.py:68-84 | a non-empty failure section is the summary, whatever stderr holds |
| PytestTool.SummaryIsTail | src/utils/pytest_tool.py:87-89 | otherwise the summary splits back into the last (at most ten) lines of stripped stdout |
| PytestTool.PassedIff | src/utils/pytest_tool.py:63-66 | a passing run has no summary; a failing run with output always has one |
| PytestTool.Missing | src/utils/pytest_tool.py:15-22 | a missing path gives return code -1, not passed, "Chemin introuvable." |
| PytestTool.Unexpected | src/utils/pytest_tool.py:53-59 | an exception gives return code -3, not passed |
| PytestTool.WithRoot | src/utils/pytest_tool.py:25-30 | `PYTHONPATH` becomes the root, `os.pathsep`, and the old value (or ""); every other variable is kept |
| PytestTool.Record | src/utils/pytest_tool.py:45-98 | only a completed run with return code 0 passes; a completed run passes its return code, stdout and stderr through; a timeout or exception has empty stdout and a negative code; the summary is empty exactly for a passing or silent completed run |
| PytestTool.Finish | src/utils/pytest_tool.py:33-98 | a timeout, an exception and a completed run each map to their full record |
| PytestTool.FirstMissing | src/utils/pytest_tool.py:14-15 | the first path that does not exist, all earlier ones existing; none when all exist |
| PytestTool.RunPytest | src/utils/pytest_tool.py:11-98 | the first missing file is reported; an empty list without a root raises; otherwise pytest runs over all files with `PYTHONPATH` prefixed by the root, and the result is the full record for the outcome (`Record`) |
| PytestTool.RunPytestDir | src/utils/pytesst_tool.py:9-95 | the same for a single path, with the path's parent directory as the default root, and the full record for the outcome |
| Context.ArgTextIff | src/utils/context.py:15-19 | an argument prints as its bare name exactly when unannotated, else as `name: annotation` |
| Context.ReturnTextIff | src/utils/context.py:21-24 | the return suffix is empty exactly when there is no return annotation |
| Context.ArgTexts | src/utils/context.py:44 | one printed argument per parameter, in order |
| Context.AppendNameTargets | src/utils/context.py:37-39 | the loop appends one indented line per plain-name target |
| Context.AppendSelfTargets | src/utils/context.py:52-57 | the loop appends one line per `self.x` target |
| Context.AppendAttribute | src/utils/context.py:32-39 | one class-level statement appends its annotated attribute (or `?`) or its assigned names |
| Context.AppendAttributes | src/utils/context.py:31-39 | the first pass over a class body appends the attribute lines of every statement |
| Context.AppendInitAttributes | src/utils/context.py:50-57 | the pass over `__init__` appends the `self` attributes of its assignments |
| Context.AppendMethod | src/utils/context.py:43-57 | a method appends its def line, followed, for `__init__` only, by its `self` attributes |
| Context.AppendMethods | src/utils/context.py:42-57 | the second pass over a class body appends every method's lines |
| Context.AppendStmt | src/utils/context.py:27-62 | a top-level class or function appends its lines; anything else appends nothing |
| Context.Signatures | src/utils/context.py:13-62 | the loop over the module body produces the specified signature lines |
| Context.GetFileSignatures | src/utils/context.py:6-64 | "Error parsing." on a syntax error, a raised exception otherwise propagated, else the lines joined by newlines |
| Context.NoDefinitionsNoSignatures | src/utils/context.py:26-64 | a module without classes or functions prints "" |
| Context.ModuleLinesAppend | src/utils/context.py:26-62 | the printout of a module is the printouts of its parts in order |
| Context.OnlyInitListsSelf | src/utils/context.py:49 | a method not named `__init__` prints a single def line |
| Context.DefLineOneLine | src/utils/context.py:46 | a def line built from one-line parts is one line |
| Context.NameTargetOneLine | src/utils/context.py:39 | a name-target line is one line |
| Context.SelfTargetOneLine | src/utils/context.py:57 | a `self` attribute line is one line |
| Context.AttributeOneLine | src/utils/context.py:32-39 | attribute lines are single lines |
| Context.SelfAttributeOneLine | src/utils/context.py:50-57 | `__init__` attribute lines are single lines |
| Context.MethodOneLine | src/utils/context.py:43-57 | method lines are single lines |
| Context.StmtLinesOneLine | src/utils/context.py:27-62 | the lines of any statement with one-line names are single lines |
| Context.SignatureLinesRoundTrip | src/utils/context.py:64 | the printed text splits back into exactly the signature lines |
| Context.ExampleInitLines | src/utils/context.py:43-57 | `def __init__(self, y: int): self.y = y` prints the def line and `self.y` |
| Context.InitDefLine | src/utils/context.py:46 | the def line of that `__init__` |
| Context.InitArgTexts | src/utils/context.py:15-19 | `self` and `y: int` as printed arguments |
| Context.InitBodyLines | src/utils/context.py:50-57 | only the `self.y` assignment of the body is listed |
| Context.ExampleClassLines | src/utils/context.py:27-57 | a class with an annotated attribute and an `__init__` prints four lines in order |
| Context.ExampleFunctionLines | src/utils/context.py:59-62 | `def f() -> str` prints as such |
| Context.ExampleSignatures | src/utils/context.py:26-64 | a module with a class, another statement and a function prints the class lines and then the function line |
| Context.Frame | src/utils/context.py:70 | the block starts with "File: " and ends with a newline and thirty dashes |
| Context.SingleFileSignature | src/utils/context.py:66-72 | "" exactly when the parser raises something other than a syntax error |
| Context.FrameLines | src/utils/context.py:70 | the block splits into the file-name line, the signature lines and the dashes |
| Context.DashesOneLine | src/utils/context.py:70 | the rule of dashes is one line |
| Context.BuildProjectContext | src/utils/context.py:74-88 | the loop builds the dictionary that the specification function gives for all paths |
| Context.ContextKeys | src/utils/context.py:78-86 | a file name is a key exactly when some path with that name was read and parsed |
| Context.ContextStep | src/utils/context.py:78-86 | each path adds its file name or leaves the keys as they were |
| Context.ContextLastWins | src/utils/context.py:84 | for a repeated file name, the last usable path with that name supplies the entry |
| Imports.Walk | src/utils/batching.py:23 | `ast.walk` yields the node itself first |
| Imports.RootModule | src/utils/batching.py:28 | `name.split('.')[0]` has no dot, is a prefix of the name, and is followed by a dot when shorter |
| Imports.RootModuleOfDotted | src/utils/batching.py:27-28 | `os.path` gives `os`; an undotted name is its own root |
| Imports.WalkReachesChild | src/utils/batching.py:23 | the walk reaches every node below a child |
| Imports.WalkAllContains | src/utils/batching.py:23 | the walk of a list reaches every node below any of its elements |
| Imports.SpaceRun | src/utils/batching.py:51 | the whitespace run at a position is maximal |
| Imports.WordRun | src/utils/batching.py:51 | the word-character run at a position is maximal |
| Imports.SpaceThenWord | src/utils/batching.py:51 | `\s+(\w+)` matches at least one space and then a maximal non-empty word |
| Imports.LineBegin | src/utils/batching.py:51 | the start of the line holding a position |
| Imports.MatchAtSound | src/utils/batching.py:51 | a match attempt that succeeds found the keyword at a line start (after spaces), then spaces and a word, and advances |
| Imports.LineBeginSpace | src/utils/batching.py:51 | `^\s*` may span earlier blank lines: whitespace from a line start stays whitespace from the current line's start |
| Imports.LineBeginAtLeast | src/utils/batching.py:51 | the current line's start is at or after any line start before the position |
| Imports.FindFromSound | src/utils/batching.py:51 | every token `re.findall` returns follows the keyword at a line start |
| Imports.FindFromComplete | src/utils/batching.py:51 | every match not overlapped by an earlier one is returned |
| Imports.SingleLineNoLaterMatch | src/utils/batching.py:51 | in one line, `^` admits no match after position 0 |
| Imports.ImportListYieldsFirstName | src/utils/batching.py:53-56 | `import os, sys` yields only `os` |
| Imports.ImportListFirstMatch | src/utils/batching.py:56 | the single match of `import os, sys` is `os` |
| Imports.RelativeFromYieldsNothing | src/utils/batching.py:51 | `from .pkg import x` yields no `from` token: `\w` cannot match `.` |
| Imports.FromLineYieldsNoImport | src/utils/batching.py:56 | the `import` inside a `from` line is not at a line start and yields nothing |
| Imports.RegexImportsSound | src/utils/batching.py:50-56 | every fallback token follows `from` or `import` at the start of some line |
| Imports.GetImportsRobust | src/utils/batching.py:5-58 | on a parsed tree, the root modules of every `import` and of every `from` that names a module (relative ones included; `from . import x` gives nothing); on a parse failure, the regex tokens |
| Imports.RootsOfSnoc | src/utils/batching.py:23-36 | the roots of the walked nodes accumulate node by node |
| Batching.Dedup | src/utils/batching.py:63 | the dictionary keys: distinct, and exactly the listed files |
| Batching.DedupFirstOccurrence | src/utils/batching.py:63 | the keys keep first-occurrence order, so the first key (the start of the cycle search) is the first file |
| Batching.Lookup | src/utils/batching.py:67 | every basename of a listed file is a key, and each key maps to a listed file with that basename |
| Batching.LookupLastWins | src/utils/batching.py:67 | for a repeated basename the last file wins |
| Batching.SelfImportNeverReady | src/utils/batching.py:74-89 | a file whose token names itself is never ready while unscheduled |
| Batching.ReadyAmong | src/utils/batching.py:73-89 | the ready list holds exactly the remaining files with no remaining dependency |
| Batching.Smallest | src/utils/batching.py:91-96 | `sorted(ready)[0]` is a ready file not above any other |
| Batching.Without | src/utils/batching.py:98 | deleting keys never lengthens the key list |
| Batching.WithoutSpec | src/utils/batching.py:121-123 | the remaining keys are exactly those not deleted; the list strictly shrinks when one was present; keys stay distinct |
| Batching.Reach | src/utils/batching.py:101-117 | the reachable closure stays among the remaining files |
| Batching.ReachContainsStart | src/utils/batching.py:104 | the start file is in its closure |
| Batching.ReachStep | src/utils/batching.py:111-117 | following one more remaining dependency stays reachable |
| Batching.ReachClosed | src/utils/batching.py:111-117 | the closure is closed under remaining dependencies |
| Batching.ClosedContainsReach | src/utils/batching.py:101-117 | any closed set holding the start holds every reachable file |
| Batching.RunStep | src/utils/batching.py:71-123 | the schedule is the first batch followed by the schedule of the remaining keys |
| Batching.RunUnfold | src/utils/batching.py:71-123 | the i-th batch is the first one, or the (i-1)-th batch of the rest |
| Batching.ProgressAt | src/utils/batching.py:71-123 | every round removes at least one remaining file and only remaining files |
| Batching.WithoutAll | src/utils/batching.py:121-123 | deleting every key empties the map |
| Batching.WithoutElems | src/utils/batching.py:121-123 | the remaining files are the previous ones minus the batch |
| Batching.BatchWithin | src/utils/batching.py:71-123 | no batch is empty and each holds only files from the input |
| Batching.KeyCovered | src/utils/batching.py:71-123 | every file lands in some batch |
| Batching.BatchesDisjoint | src/utils/batching.py:71-123 | no file lands in two batches |
| Batching.RunPartition | src/utils/batching.py:71-123 | the batches partition the input into non-empty parts |
| Batching.FirstBatchDependency | src/utils/batching.py:88-119 | a remaining dependency of a first-batch file is in that batch, which is then a group |
| Batching.DependencyScheduledEarlier | src/utils/batching.py:71-123 | a remaining dependency is scheduled no later, and strictly earlier for a lone file |
| Batching.NextBatch | src/utils/batching.py:72-119 | a round emits a non-empty batch of remaining files |
| Batching.Step | src/utils/batching.py:71-123 | the corrected round always makes progress |
| Batching.StepSound | src/utils/batching.py:88-119 | a ready file has no remaining dependency and a group is closed under dependencies |
| Batching.SchedulePartition | src/utils/batching.py:60-125 | every file is scheduled exactly once, in non-empty batches |
| Batching.ScheduleRespectsDependencies | src/utils/batching.py:60-125 | every dependency is scheduled in the same or an earlier batch, and strictly earlier for a lone file |
| Batching.ScheduleReadyFirst | src/utils/batching.py:91-99 | when some file is ready, the first batch is the smallest ready file alone |
| Batching.LoneSelfImportGroup | src/utils/batching.py:101-119 | a lone self-importing first key with nothing ready forms a group by itself |
| Batching.NextBatchAsWritten | src/utils/batching.py:72-119 | the round as written also emits a non-empty batch of remaining files |
| Batching.StepAsWritten | src/utils/batching.py:71-123 | the loop as written terminates |
| Batching.HasDependency | src/utils/batching.py:77-86 | the flag is set exactly when the file is not ready |
| Batching.ReadyFiles | src/utils/batching.py:73-89 | the loop collects exactly the ready files, in key order |
| Batching.PushTargets | src/utils/batching.py:111-117 | pushing adds exactly the remaining dependencies of the current file |
| Batching.Visit | src/utils/batching.py:107-117 | one corrected visit marks the current file and pushes its remaining dependencies, all reachable |
| Batching.SkipMarked | src/utils/batching.py:108 | popping a file already marked keeps the search invariant |
| Batching.VisitKeeps | src/utils/batching.py:106-117 | a visit keeps the search invariant |
| Batching.MarkShrinks | src/utils/batching.py:109 | marking a new file shrinks what is left to mark |
| Batching.CycleBatch | src/utils/batching.py:101-117 | the corrected search returns exactly the files reachable from the first key |
| Batching.AddTargets | src/utils/batching.py:111-117 | as written, pushing a dependency also adds it to the batch |
| Batching.CycleBatchAsWritten | src/utils/batching.py:101-117 | the search as written returns only the first key and its direct remaining dependencies |
| Batching.ChooseBatch | src/utils/batching.py:72-119 | corrected (see "## Findings"): one round computes the specified batch, and the schedule continues from the remaining keys |
| Batching.ScheduleBatches | src/utils/batching.py:69-123 | corrected (see "## Findings"): the outer loop produces the specified schedule |
| Batching.BuildDependencyMap | src/utils/batching.py:63 | fails exactly when some file cannot be read, naming the first such file; otherwise the specified map |
| Batching.ChooseBatchAsWritten | src/utils/batching.py:72-119 | as written: one round computes the batch of the code as written, and the schedule as written continues from the remaining keys |
| Batching.ScheduleBatchesAsWritten | src/utils/batching.py:69-123 | as written: the outer loop produces the schedule of the code as written |
| Batching.ScheduleAsWrittenPartition | src/utils/batching.py:60-125 | as written, every file is still scheduled exactly once, in non-empty batches |
| Batching.BuildSequentialBatchesAsWritten | src/utils/batching.py:60-125 | as written: fails exactly when a file cannot be read; otherwise the schedule of the code as written over the distinct files; [] for no files |
| Batching.BuildSequentialBatches | src/utils/batching.py:60-125 | corrected (see "## Findings"): fails exactly when a file cannot be read; otherwise the dependency-ordered schedule of the distinct files; [] for no files |
| BatchingExamples.ReadyAmongSnoc | src/utils/batching.py:74-89 | the ready list of an extended key list extends by the new key exactly when it is ready |
| BatchingExamples.ChainTargets | src/utils/batching.py:79-85 | in the chain a→b→c, each file's tokens name the next file |
| BatchingExamples.ChainRound1 | src/utils/batching.py:91-98 | the chain's first round emits the leaf `c.py` alone |
| BatchingExamples.ChainRound2 | src/utils/batching.py:91-98 | the second round emits `b.py` |
| BatchingExamples.ChainRound3 | src/utils/batching.py:91-98 | the third round emits `a.py` |
| BatchingExamples.ChainScheduledLeafFirst | src/utils/batching.py:60-125 | the chain is scheduled c, b, a, one file per batch |
| BatchingExamples.PairScheduledTogether | src/utils/batching.py:101-123 | two files importing each other form one group |
| BatchingExamples.RingTargets | src/utils/batching.py:79-85 | in the ring a→b→c→a each file names the next |
| BatchingExamples.RingNothingReady | src/utils/batching.py:88-91 | no file of the ring is ready |
| BatchingExamples.RingScheduledTogether | src/utils/batching.py:101-123 | the corrected scheduler puts the whole ring in one group |
| BatchingExamples.RingSplitAsWritten | src/utils/batching.py:101-123 | the code as written schedules {a, b} before c, although b depends on c |
| BatchingExamples.RingFirstRoundAsWritten | src/utils/batching.py:108-117 | as written, the first round takes a and its direct dependency b only |
| BatchingExamples.RingSecondRoundAsWritten | src/utils/batching.py:91-98 | as written, c is then ready and follows alone |

## Left out

- The clock and `sleep(2)` at the start of `run_pytest`: no observable effect on the result.
- `subprocess.run` itself (its timeout, output capture and environment): it is a function parameter from invocation to outcome.
- `os.environ.copy()`: the environment is a map parameter.
- `os.path.realpath`, `exists`, `isfile`, `abspath`, file reading and `ast.parse`: these are parameters, and symbolic-link resolution is not modelled.
- `os.makedirs` in `write_file`: the file system is a flat map from canonical path to text, so directories are not modelled.
- The UTF-8 encoding and decoding and its errors: strings are sequences of code points.
- PylintTool.Score: it is the exact decimal value of the matched token, not the nearest binary float that `float()` returns.
- PylintTool.RunPylint: the `except ValueError` branch of the score conversion is not modelled, since the regex admits only tokens `float()` accepts.
- PytestTool.TailSummary keeps the source's "Erreur inconnue." branch, but it cannot be taken, because `split` always returns at least one line.
- Imports: `\w` is modelled as ASCII letters, digits and underscore; Python's Unicode word characters beyond ASCII are left out.
- Imports.GetImportsRobust: the diagnostic `print` calls on a parse failure are left out.
- Context: `async def` and every nested statement other than those printed are folded into `Other`.
- Context: only the positional parameters `args.args` are printed, as in the source; `posonlyargs`, `*args`, keyword-only parameters and `**kwargs` are absent from both.
- Context: an exception from `ast.unparse` is folded into the parser's `Raises` outcome.
- Batching: the order of the files inside a group (`list(cycle_batch)`, set iteration order) is left unspecified, because a group is a set.
- Batching: dictionary insertion order is modelled, with the key list in file order and duplicates dropped.
- Batching: a file that cannot be read makes `BuildSequentialBatches` fail, as the uncaught `open` error does in the source.
- The agents, the graph, the prompts, the logger, `main.py`, the `black` wrapper and the sandbox bug files are not part of this model.

## Findings

| source | as written | input that shows it | evidently intended | confidence | as-written member | corrected member |
|---|---|---|---|---|---|---|
| src/utils/batching.py:116 | a dependency is added to `cycle_batch` when it is pushed, so line 108 skips it when it is popped; the search never expands past the first key's direct dependencies | files `a.py`, `b.py`, `c.py` importing `b`, `c`, `a` in a ring: the batches are `[{a, b}, [c]]`, and `b` is fixed before the `c` it depends on | the group is every file reachable from the first key, so each batch's dependencies are in it or earlier | not executed | Batching.CycleBatchAsWritten, BatchingExamples.RingSplitAsWritten | Batching.CycleBatch, Batching.ScheduleRespectsDependencies |
