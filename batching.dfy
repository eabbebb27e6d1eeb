/**
  The dependency-aware batch scheduler (`build_sequential_batches` in
  src/utils/batching.py). Each file is reduced to the root modules it
  imports; a token `d` names an in-scope file when `d + ".py"` is the basename
  of one of the files. While files remain, the scheduler emits either the
  lexicographically smallest file none of whose tokens names a remaining file,
  as a batch of its own, or, when every remaining file still waits on one, a
  group of files found by a depth-first search from the first remaining file.
 */
module Batching {
  import opened Wrappers
  import opened Strings
  import opened Paths
  import opened Imports

  type Path = string

  /** One batch: `[next_file]` from the ready branch, or `list(cycle_batch)` (whose order the source leaves to set iteration). */
  datatype Batch = Singleton(file: Path) | CycleGroup(members: set<Path>)
  {
    function Files(): set<Path>
    {
      match this
      case Singleton(f) => {f}
      case CycleGroup(m) => m
    }
  }

  predicate Distinct(xs: seq<Path>)
  {
    forall i, j :: 0 <= i < j < |xs| ==> xs[i] != xs[j]
  }

  function Elems(xs: seq<Path>): set<Path>
  {
    set x | x in xs
  }

  /** The keys of `{f: ... for f in files}` in insertion order: each path once, at its first occurrence. */
  function Dedup(files: seq<Path>): (r: seq<Path>)
    ensures Distinct(r)
    ensures forall x :: x in r <==> x in files
  {
    if files == [] then []
    else
      var r := Dedup(files[..|files| - 1]);
      var last := files[|files| - 1];
      assert files == files[..|files| - 1] + [last];
      if last in r then r else r + [last]
  }

  /** `a` occurs in `files` at a position before every occurrence of `b`. */
  predicate OccursBefore(files: seq<Path>, a: Path, b: Path)
  {
    exists p :: 0 <= p < |files| && files[p] == a && b !in files[..p]
  }

  /**
    The keys keep the order of first occurrence: the first key is the first file
    (the `start_node` of line 102), and each key first occurs before every later key.
   */
  lemma {:induction false} DedupFirstOccurrence(files: seq<Path>)
    ensures files != [] ==> Dedup(files)[0] == files[0]
    ensures forall i, j :: 0 <= i < j < |Dedup(files)| ==> OccursBefore(files, Dedup(files)[i], Dedup(files)[j])
  {
    if files != [] {
      var init := files[..|files| - 1];
      var last := files[|files| - 1];
      var r := Dedup(init);
      DedupFirstOccurrence(init);
      assert files == init + [last];
      forall a, b | OccursBefore(init, a, b) ensures OccursBefore(files, a, b) {
        var p :| 0 <= p < |init| && init[p] == a && b !in init[..p];
        assert files[..p] == init[..p];
      }
      if last !in r {
        assert last !in init;
        forall i | 0 <= i < |r| ensures OccursBefore(files, r[i], last) {
          assert r[i] in r;
          assert r[i] in init;
          var p :| 0 <= p < |init| && init[p] == r[i];
          assert files[..p] == init[..p];
          assert last !in files[..p];
        }
        if init == [] {
          assert Dedup(files) == [last];
        }
      }
    }
  }

  /** `filename_to_fullpath = {os.path.basename(f): f for f in files}` (line 67). */
  function Lookup(files: seq<Path>): (m: map<string, Path>)
    ensures forall b :: b in m ==> m[b] in files && Basename(m[b]) == b
    ensures forall f :: f in files ==> Basename(f) in m
  {
    if files == [] then map[]
    else
      var last := files[|files| - 1];
      assert files == files[..|files| - 1] + [last];
      Lookup(files[..|files| - 1])[Basename(last) := last]
  }

  /** When several paths share a basename, the lookup holds the one listed last. */
  lemma {:induction false} LookupLastWins(files: seq<Path>, i: nat)
    requires i < |files|
    requires forall j :: i < j < |files| ==> Basename(files[j]) != Basename(files[i])
    ensures Lookup(files)[Basename(files[i])] == files[i]
  {
    var init := files[..|files| - 1];
    var last := files[|files| - 1];
    assert Lookup(files) == Lookup(init)[Basename(last) := last];
    if i < |files| - 1 {
      assert init[i] == files[i];
      forall j | i < j < |init| ensures Basename(init[j]) != Basename(init[i]) {
        assert init[j] == files[j];
      }
      LookupLastWins(init, i);
      assert Basename(last) != Basename(files[i]);
    }
  }

  /** `d + ".py"`: the file name a token stands for (lines 79 and 112). */
  function DepFilename(d: string): string
  {
    d + ".py"
  }

  /** The dependency map together with the basename lookup. */
  datatype Graph = Graph(lookup: map<string, Path>, imports: map<Path, set<string>>)
  {
    /** The in-scope files that the tokens `ds` name through `d + ".py"` (lines 79-83). */
    function Names(ds: set<string>): set<Path>
    {
      set d | d in ds && DepFilename(d) in lookup :: lookup[DepFilename(d)]
    }

    function Targets(f: Path): set<Path>
    {
      if f in imports then Names(imports[f]) else {}
    }
  }

  /** Lines 74-89: a file is ready when none of its tokens names a file that is still unscheduled. */
  predicate Ready(g: Graph, remaining: set<Path>, f: Path)
  {
    g.Targets(f) * remaining == {}
  }

  /** A file that imports itself is never ready while it is unscheduled. */
  lemma {:induction false} SelfImportNeverReady(g: Graph, remaining: set<Path>, f: Path, d: string)
    requires f in remaining && f in g.imports && d in g.imports[f]
    requires DepFilename(d) in g.lookup && g.lookup[DepFilename(d)] == f
    ensures !Ready(g, remaining, f)
  {
    assert f in g.Targets(f) * remaining;
  }

  /** `ready_files` before sorting: the ready files in dictionary order. */
  function ReadyAmong(g: Graph, remaining: set<Path>, xs: seq<Path>): (r: seq<Path>)
    ensures forall f :: f in r <==> f in xs && Ready(g, remaining, f)
  {
    if xs == [] then []
    else
      var init := ReadyAmong(g, remaining, xs[..|xs| - 1]);
      var last := xs[|xs| - 1];
      assert xs == xs[..|xs| - 1] + [last];
      if Ready(g, remaining, last) then init + [last] else init
  }

  /** `sorted(xs)[0]`: the least path in code-point order. */
  function Smallest(xs: seq<Path>): (m: Path)
    requires xs != []
    ensures m in xs
    ensures forall x :: x in xs ==> x == m || LexLess(m, x)
  {
    if |xs| == 1 then xs[0]
    else
      var m := Smallest(xs[1..]);
      assert forall x :: x in xs ==> x == xs[0] || x in xs[1..];
      LexLessTotal(xs[0], m);
      if LexLess(xs[0], m) then
        assert forall x :: x in xs[1..] && x != m ==> LexLess(xs[0], x) by {
          forall x | x in xs[1..] && x != m ensures LexLess(xs[0], x) {
            LexLessTransitive(xs[0], m, x);
          }
        }
        xs[0]
      else
        m
  }

  /** Deleting scheduled keys from the dependency map keeps the order of the others. */
  function Without(xs: seq<Path>, s: set<Path>): (r: seq<Path>)
    ensures |r| <= |xs|
  {
    if xs == [] then []
    else
      var rest := Without(xs[1..], s);
      if xs[0] in s then rest else [xs[0]] + rest
  }

  /** The kept keys are exactly those not deleted, and deleting a present key shortens the list. */
  lemma {:induction false} WithoutSpec(xs: seq<Path>, s: set<Path>)
    ensures var r := Without(xs, s);
      && (forall x :: x in r <==> x in xs && x !in s)
      && ((exists x :: x in xs && x in s) ==> |r| < |xs|)
      && (Distinct(xs) ==> Distinct(r))
  {
    if xs != [] {
      WithoutSpec(xs[1..], s);
      assert forall x :: x in xs ==> x == xs[0] || x in xs[1..];
      assert Distinct(xs) ==> xs[0] !in xs[1..];
    }
  }

  // ---------------------------------------------------------------------
  // Reachability through resolved edges among the remaining files
  // ---------------------------------------------------------------------

  ghost predicate IsPath(g: Graph, rs: set<Path>, p: seq<Path>)
  {
    && |p| >= 1
    && (forall k :: 0 <= k < |p| ==> p[k] in rs)
    && (forall i, j :: 0 <= i < |p| && j == i + 1 < |p| ==> p[j] in g.Targets(p[i]))
  }

  ghost predicate Reachable(g: Graph, rs: set<Path>, a: Path, b: Path)
  {
    exists p :: IsPath(g, rs, p) && p[0] == a && p[|p| - 1] == b
  }

  /** The remaining files reachable from `a`, `a` included. */
  ghost function Reach(g: Graph, rs: set<Path>, a: Path): (r: set<Path>)
    ensures r <= rs
  {
    set b | b in rs && Reachable(g, rs, a, b)
  }

  lemma ReachContainsStart(g: Graph, rs: set<Path>, a: Path)
    requires a in rs
    ensures a in Reach(g, rs, a)
  {
    assert IsPath(g, rs, [a]);
  }

  lemma ReachStep(g: Graph, rs: set<Path>, a: Path, x: Path, y: Path)
    requires Reachable(g, rs, a, x) && y in g.Targets(x) && y in rs
    ensures Reachable(g, rs, a, y)
  {
    var p :| IsPath(g, rs, p) && p[0] == a && p[|p| - 1] == x;
    var q := p + [y];
    assert IsPath(g, rs, q);
  }

  /** The reachable set is closed under the edges among the remaining files. */
  lemma ReachClosed(g: Graph, rs: set<Path>, a: Path, x: Path, y: Path)
    requires x in Reach(g, rs, a) && y in g.Targets(x) * rs
    ensures y in Reach(g, rs, a)
  {
    ReachStep(g, rs, a, x, y);
  }

  /** A set that holds `a` and is closed under the edges holds everything reachable from `a`. */
  lemma ClosedContainsReach(g: Graph, rs: set<Path>, s: set<Path>, a: Path, b: Path)
    requires a in s
    requires forall x, y :: x in s && y in g.Targets(x) && y in rs ==> y in s
    requires Reachable(g, rs, a, b)
    ensures b in s
  {
    var p :| IsPath(g, rs, p) && p[0] == a && p[|p| - 1] == b;
    PathStaysIn(g, rs, s, p, |p| - 1);
  }

  lemma {:induction false} PathStaysIn(g: Graph, rs: set<Path>, s: set<Path>, p: seq<Path>, k: nat)
    requires IsPath(g, rs, p) && p[0] in s && k < |p|
    requires forall x, y :: x in s && y in g.Targets(x) && y in rs ==> y in s
    ensures p[k] in s
  {
    if k > 0 {
      PathStaysIn(g, rs, s, p, k - 1);
      assert p[k] in g.Targets(p[k - 1]);
    }
  }

  // ---------------------------------------------------------------------
  // The schedule
  // ---------------------------------------------------------------------

  /**
    A rule for choosing the next batch makes progress when, for every
    non-empty key list, it picks at least one of the keys and nothing else.
   */
  ghost predicate Progress(next: seq<Path> -> Batch)
  {
    forall r :: r != [] ==> PicksFrom(next, r)
  }

  /** The rule's batch for `r` holds some of the keys `r` and nothing else. */
  ghost predicate PicksFrom(next: seq<Path> -> Batch, r: seq<Path>)
  {
    (exists x :: x in r && x in next(r).Files()) && next(r).Files() <= Elems(r)
  }

  /**
    The outer `while dependency_map:` loop (lines 71-123): emit the chosen
    batch, delete its files from the dependency map, repeat.
   */
  ghost function Run(next: seq<Path> -> Batch, rem: seq<Path>): seq<Batch>
    requires Progress(next)
    decreases |rem|
  {
    if rem == [] then []
    else
      ProgressAt(next, rem);
      var b := next(rem);
      [b] + Run(next, Without(rem, b.Files()))
  }

  lemma RunStep(next: seq<Path> -> Batch, rem: seq<Path>)
    requires Progress(next) && rem != []
    ensures Run(next, rem) == [next(rem)] + Run(next, Without(rem, next(rem).Files()))
  {
  }

  lemma RunUnfold(next: seq<Path> -> Batch, rem: seq<Path>, i: nat)
    requires Progress(next) && rem != [] && i < |Run(next, rem)|
    ensures i == 0 ==> Run(next, rem)[i] == next(rem)
    ensures i > 0 ==> var rest := Without(rem, next(rem).Files());
      i - 1 < |Run(next, rest)| && Run(next, rem)[i] == Run(next, rest)[i - 1]
  {
  }

  /** The rule's batch for a non-empty key list is non-empty and made of those keys. */
  lemma ProgressAt(next: seq<Path> -> Batch, r: seq<Path>)
    requires Progress(next) && r != []
    ensures next(r).Files() != {} && next(r).Files() <= Elems(r)
    ensures |Without(r, next(r).Files())| < |r|
  {
    assert PicksFrom(next, r);
    var x :| x in r && x in next(r).Files();
    WithoutSpec(r, next(r).Files());
  }

  /** Deleting every key leaves nothing. */
  lemma {:induction false} WithoutAll(xs: seq<Path>, s: set<Path>)
    requires Elems(xs) <= s
    ensures Without(xs, s) == []
  {
    if xs != [] {
      assert xs[0] in Elems(xs);
      WithoutAll(xs[1..], s);
    }
  }

  lemma WithoutElems(xs: seq<Path>, s: set<Path>)
    ensures Elems(Without(xs, s)) == Elems(xs) - s
  {
    WithoutSpec(xs, s);
  }

  /** Batch `i` is non-empty and made of remaining keys. */
  lemma {:induction false} BatchWithin(next: seq<Path> -> Batch, rem: seq<Path>, i: nat)
    requires Progress(next) && i < |Run(next, rem)|
    ensures Run(next, rem)[i].Files() != {} && Run(next, rem)[i].Files() <= Elems(rem)
    decreases |rem|
  {
    assert rem != [];
    ProgressAt(next, rem);
    RunUnfold(next, rem, i);
    if i > 0 {
      var rest := Without(rem, next(rem).Files());
      BatchWithin(next, rest, i - 1);
      WithoutElems(rem, next(rem).Files());
    }
  }

  /** The batch that holds key `x`. */
  lemma {:induction false} KeyCovered(next: seq<Path> -> Batch, rem: seq<Path>, x: Path) returns (i: nat)
    requires Progress(next) && x in rem
    ensures i < |Run(next, rem)| && x in Run(next, rem)[i].Files()
    decreases |rem|
  {
    assert rem != [];
    ProgressAt(next, rem);
    if x in next(rem).Files() {
      i := 0;
    } else {
      var rest := Without(rem, next(rem).Files());
      WithoutSpec(rem, next(rem).Files());
      var k := KeyCovered(next, rest, x);
      i := k + 1;
    }
    RunUnfold(next, rem, i);
  }

  /** A key in batch `i` appears in no later batch. */
  lemma {:induction false} BatchesDisjoint(next: seq<Path> -> Batch, rem: seq<Path>, i: nat, j: nat, x: Path)
    requires Progress(next) && i < j < |Run(next, rem)| && x in Run(next, rem)[i].Files()
    ensures x !in Run(next, rem)[j].Files()
    decreases |rem|
  {
    assert rem != [];
    ProgressAt(next, rem);
    var rest := Without(rem, next(rem).Files());
    RunUnfold(next, rem, j);
    if i == 0 {
      BatchWithin(next, rest, j - 1);
      WithoutElems(rem, next(rem).Files());
    } else {
      RunUnfold(next, rem, i);
      BatchesDisjoint(next, rest, i - 1, j - 1, x);
    }
  }

  /** Whatever rule picks the batches, every key lands in exactly one batch and no batch is empty. */
  lemma RunPartition(next: seq<Path> -> Batch, rem: seq<Path>)
    requires Progress(next)
    ensures var s := Run(next, rem);
      && (forall i :: 0 <= i < |s| ==> s[i].Files() != {} && s[i].Files() <= Elems(rem))
      && (forall x :: x in rem ==> exists i :: 0 <= i < |s| && x in s[i].Files())
      && (forall i, j, x :: 0 <= i < j < |s| && x in s[i].Files() ==> x !in s[j].Files())
  {
    var s := Run(next, rem);
    forall i | 0 <= i < |s| ensures s[i].Files() != {} && s[i].Files() <= Elems(rem) {
      BatchWithin(next, rem, i);
    }
    forall x | x in rem ensures exists i :: 0 <= i < |s| && x in s[i].Files() {
      var i := KeyCovered(next, rem, x);
    }
    forall i, j, x | 0 <= i < j < |s| && x in s[i].Files() ensures x !in s[j].Files() {
      BatchesDisjoint(next, rem, i, j, x);
    }
  }

  /**
    A batch respects the dependencies among the keys `r` it was chosen from:
    a lone file has none left, and a group holds every remaining file its
    members' tokens name.
   */
  ghost predicate Respects(g: Graph, r: seq<Path>, b: Batch)
  {
    match b
    case Singleton(f) => Ready(g, Elems(r), f)
    case CycleGroup(m) => forall x, y :: x in m && y in g.Targets(x) && y in r ==> y in m
  }

  ghost predicate Sound(g: Graph, next: seq<Path> -> Batch)
  {
    forall r :: r != [] ==> Respects(g, r, next(r))
  }

  /** A dependency of a file in the first batch, still among the keys, is in that batch, which is then a group. */
  lemma FirstBatchDependency(g: Graph, next: seq<Path> -> Batch, rem: seq<Path>, f: Path, t: Path)
    requires Sound(g, next) && rem != []
    requires f in next(rem).Files() && t in g.Targets(f) && t in rem
    ensures next(rem).CycleGroup? && t in next(rem).Files()
  {
    var b := next(rem);
    assert Respects(g, rem, b);
    assert !Ready(g, Elems(rem), f) by { assert t in g.Targets(f) * Elems(rem); }
  }

  /** The batch that holds dependency `t` of file `f` in batch `i`. */
  lemma {:induction false} DependencyScheduledEarlier(g: Graph, next: seq<Path> -> Batch, rem: seq<Path>, i: nat, f: Path, t: Path)
    returns (j: nat)
    requires Progress(next) && Sound(g, next)
    requires i < |Run(next, rem)| && f in Run(next, rem)[i].Files()
    requires t in g.Targets(f) && t in rem
    ensures j <= i && t in Run(next, rem)[j].Files()
    ensures Run(next, rem)[i].Singleton? ==> j < i
    decreases |rem|
  {
    assert rem != [];
    ProgressAt(next, rem);
    var b := next(rem);
    RunUnfold(next, rem, i);
    if i == 0 {
      FirstBatchDependency(g, next, rem, f, t);
      j := 0;
    } else if t in b.Files() {
      j := 0;
      RunUnfold(next, rem, 0);
    } else {
      var rest := Without(rem, b.Files());
      WithoutSpec(rem, b.Files());
      var k := DependencyScheduledEarlier(g, next, rest, i - 1, f, t);
      j := k + 1;
      RunUnfold(next, rem, j);
    }
  }

  // ---------------------------------------------------------------------
  // The scheduler's rule, corrected and as written
  // ---------------------------------------------------------------------

  /**
    The batch one round of the loop emits (lines 72-119), with the cycle branch
    taking the full reachable closure of the first remaining key.
   */
  ghost function NextBatch(g: Graph, rem: seq<Path>): (b: Batch)
    ensures rem != [] ==> b.Files() <= Elems(rem) && exists x :: x in rem && x in b.Files()
  {
    if rem == [] then CycleGroup({})
    else
      var rs := Elems(rem);
      var ready := ReadyAmong(g, rs, rem);
      if ready != [] then
        Singleton(Smallest(ready))
      else
        ReachContainsStart(g, rs, rem[0]);
        CycleGroup(Reach(g, rs, rem[0]))
  }

  ghost function Step(g: Graph): (next: seq<Path> -> Batch)
    ensures Progress(next)
  {
    (r: seq<Path>) => NextBatch(g, r)
  }

  /** The batch sequence for the keys `rem`, in dictionary order. */
  ghost function Schedule(g: Graph, rem: seq<Path>): seq<Batch>
  {
    Run(Step(g), rem)
  }

  /** The corrected rule only emits batches that respect the dependencies. */
  lemma StepSound(g: Graph)
    ensures Sound(g, Step(g))
  {
    forall r | r != [] ensures Respects(g, r, Step(g)(r)) {
      var rs := Elems(r);
      var ready := ReadyAmong(g, rs, r);
      if ready == [] {
        forall x, y | x in Reach(g, rs, r[0]) && y in g.Targets(x) && y in r ensures y in Reach(g, rs, r[0]) {
          ReachClosed(g, rs, r[0], x, y);
        }
      }
    }
  }

  /** Every key lands in exactly one batch, and no batch is empty. */
  lemma SchedulePartition(g: Graph, rem: seq<Path>)
    ensures var s := Schedule(g, rem);
      && (forall i :: 0 <= i < |s| ==> s[i].Files() != {} && s[i].Files() <= Elems(rem))
      && (forall x :: x in rem ==> exists i :: 0 <= i < |s| && x in s[i].Files())
      && (forall i, j, x :: 0 <= i < j < |s| && x in s[i].Files() ==> x !in s[j].Files())
  {
    RunPartition(Step(g), rem);
  }

  /**
    Dependency order: a remaining file that a scheduled file's tokens name is
    scheduled in the same batch or an earlier one, and strictly earlier when
    the later batch is a lone file.
   */
  lemma ScheduleRespectsDependencies(g: Graph, rem: seq<Path>)
    ensures var s := Schedule(g, rem);
      forall i, f, t :: 0 <= i < |s| && f in s[i].Files() && t in g.Targets(f) && t in rem ==>
        exists j :: 0 <= j <= i && t in s[j].Files() && (s[i].Singleton? ==> j < i)
  {
    StepSound(g);
    var s := Schedule(g, rem);
    forall i, f, t | 0 <= i < |s| && f in s[i].Files() && t in g.Targets(f) && t in rem
      ensures exists j :: 0 <= j <= i && t in s[j].Files() && (s[i].Singleton? ==> j < i)
    {
      var j := DependencyScheduledEarlier(g, Step(g), rem, i, f, t);
    }
  }

  /** When a file is ready, the first batch is the smallest ready file on its own. */
  lemma ScheduleReadyFirst(g: Graph, rem: seq<Path>, f: Path)
    requires f in rem && Ready(g, Elems(rem), f)
    ensures var s := Schedule(g, rem);
      |s| > 0 && s[0].Singleton? && s[0].file in rem && Ready(g, Elems(rem), s[0].file)
      && (s[0].file == f || LexLess(s[0].file, f))
  {
    assert f in ReadyAmong(g, Elems(rem), rem);
    RunUnfold(Step(g), rem, 0);
  }

  /** When nothing is ready and the first key's only remaining dependency is itself, its group is that file alone. */
  lemma LoneSelfImportGroup(g: Graph, rem: seq<Path>)
    requires rem != [] && ReadyAmong(g, Elems(rem), rem) == []
    requires g.Targets(rem[0]) * Elems(rem) == {rem[0]}
    ensures Schedule(g, rem)[0] == CycleGroup({rem[0]})
  {
    var rs, a := Elems(rem), rem[0];
    ReachContainsStart(g, rs, a);
    forall b | b in Reach(g, rs, a) ensures b == a {
      ClosedContainsReach(g, rs, {a}, a, b);
    }
    assert Reach(g, rs, a) == {a};
    assert NextBatch(g, rem) == CycleGroup({a});
    RunUnfold(Step(g), rem, 0);
  }

  /** One round as the code is written: the cycle branch takes the first key and only its direct dependencies. */
  ghost function NextBatchAsWritten(g: Graph, rem: seq<Path>): (b: Batch)
    ensures rem != [] ==> b.Files() <= Elems(rem) && exists x :: x in rem && x in b.Files()
  {
    if rem == [] then CycleGroup({})
    else
      var rs := Elems(rem);
      var ready := ReadyAmong(g, rs, rem);
      if ready != [] then
        Singleton(Smallest(ready))
      else
        CycleGroup({rem[0]} + g.Targets(rem[0]) * rs)
  }

  ghost function StepAsWritten(g: Graph): (next: seq<Path> -> Batch)
    ensures Progress(next)
  {
    (r: seq<Path>) => NextBatchAsWritten(g, r)
  }

  /** The batch sequence the code as written produces (see `CycleBatchAsWritten`). */
  ghost function ScheduleAsWritten(g: Graph, rem: seq<Path>): seq<Batch>
  {
    Run(StepAsWritten(g), rem)
  }

  // ---------------------------------------------------------------------
  // The imperative scheduler
  // ---------------------------------------------------------------------

  /** Lines 77-86: does some token of `f` name a file that is still in the dependency map? */
  method HasDependency(g: Graph, remaining: set<Path>, f: Path) returns (has: bool)
    requires f in g.imports
    ensures has <==> !Ready(g, remaining, f)
  {
    var deps := g.imports[f];
    while deps != {}
      invariant deps <= g.imports[f]
      invariant forall d :: d in g.imports[f] && d !in deps && DepFilename(d) in g.lookup ==>
        g.lookup[DepFilename(d)] !in remaining
      decreases |deps|
    {
      var d :| d in deps;
      var depFilename := DepFilename(d);
      if depFilename in g.lookup {
        var fullDepPath := g.lookup[depFilename];
        if fullDepPath in remaining {
          assert fullDepPath in g.Targets(f) * remaining;
          return true;
        }
      }
      deps := deps - {d};
    }
    return false;
  }

  /** Lines 73-89: the ready files, in dictionary order. */
  method ReadyFiles(g: Graph, rem: seq<Path>) returns (ready: seq<Path>)
    requires forall f :: f in rem ==> f in g.imports
    ensures ready == ReadyAmong(g, Elems(rem), rem)
  {
    ready := [];
    for i := 0 to |rem|
      invariant ready == ReadyAmong(g, Elems(rem), rem[..i])
    {
      var has := HasDependency(g, Elems(rem), rem[i]);
      assert rem[..i + 1][..i] == rem[..i];
      if !has {
        ready := ready + [rem[i]];
      }
    }
    assert rem[..|rem|] == rem;
  }

  /** Lines 110-116 corrected: push every remaining file that `current`'s tokens name. */
  method PushTargets(g: Graph, rs: set<Path>, current: Path, stack: seq<Path>) returns (pushed: seq<Path>)
    requires current in g.imports
    ensures forall x :: x in pushed <==> x in stack || x in g.Targets(current) * rs
  {
    pushed := stack;
    var deps := g.imports[current];
    while deps != {}
      invariant deps <= g.imports[current]
      invariant forall x :: x in pushed ==> x in stack || x in g.Targets(current) * rs
      invariant forall x :: x in stack ==> x in pushed
      invariant forall d :: d in g.imports[current] && d !in deps && DepFilename(d) in g.lookup && g.lookup[DepFilename(d)] in rs ==>
        g.lookup[DepFilename(d)] in pushed
      decreases |deps|
    {
      var d :| d in deps;
      var depFilename := DepFilename(d);
      if depFilename in g.lookup {
        var fullDepPath := g.lookup[depFilename];
        if fullDepPath in rs {
          pushed := pushed + [fullDepPath];
        }
      }
      deps := deps - {d};
    }
  }

  /** Lines 109-116 corrected: mark `current`, then push the remaining files it names. */
  method Visit(g: Graph, rs: set<Path>, start: Path, current: Path, cycleBatch: set<Path>, stack: seq<Path>)
    returns (marked: set<Path>, pushed: seq<Path>)
    requires current in g.imports && current in Reach(g, rs, start)
    requires forall x :: x in stack ==> x in Reach(g, rs, start)
    ensures marked == cycleBatch + {current}
    ensures forall x :: x in pushed <==> x in stack || x in g.Targets(current) * rs
    ensures forall x :: x in pushed ==> x in Reach(g, rs, start)
  {
    marked := cycleBatch + {current};
    forall y | y in g.Targets(current) * rs ensures y in Reach(g, rs, start) {
      ReachClosed(g, rs, start, current, y);
    }
    pushed := PushTargets(g, rs, current, stack);
  }

  /**
    What the corrected search keeps true: everything marked or on the stack
    is reachable from the start, the start is marked or still to be popped,
    and every edge out of a marked file ends at a marked or stacked file.
   */
  ghost predicate SearchInvariant(g: Graph, rs: set<Path>, start: Path, marked: set<Path>, stack: seq<Path>)
  {
    && marked <= Reach(g, rs, start)
    && (forall x :: x in stack ==> x in Reach(g, rs, start))
    && (start in marked || start in stack)
    && (forall x, y :: x in marked && y in g.Targets(x) * rs ==> y in marked || y in stack)
  }

  lemma SkipMarked(g: Graph, rs: set<Path>, start: Path, marked: set<Path>, stack: seq<Path>)
    requires stack != [] && stack[|stack| - 1] in marked
    requires SearchInvariant(g, rs, start, marked, stack)
    ensures SearchInvariant(g, rs, start, marked, stack[..|stack| - 1])
  {
    var popped := stack[..|stack| - 1];
    assert forall x :: x in stack ==> x == stack[|stack| - 1] || x in popped;
  }

  lemma VisitKeeps(g: Graph, rs: set<Path>, start: Path, marked: set<Path>, stack: seq<Path>,
                   marked': set<Path>, pushed: seq<Path>)
    requires stack != [] && SearchInvariant(g, rs, start, marked, stack)
    requires var current := stack[|stack| - 1];
      && marked' == marked + {current}
      && (forall x :: x in pushed <==> x in stack[..|stack| - 1] || x in g.Targets(current) * rs)
      && (forall x :: x in pushed ==> x in Reach(g, rs, start))
    ensures SearchInvariant(g, rs, start, marked', pushed)
  {
    var current := stack[|stack| - 1];
    assert forall x :: x in stack ==> x == current || x in stack[..|stack| - 1];
  }

  lemma MarkShrinks(rs: set<Path>, marked: set<Path>, current: Path)
    requires current in rs && current !in marked
    ensures |rs - (marked + {current})| < |rs - marked|
  {
    assert rs - marked == (rs - (marked + {current})) + {current};
  }

  /**
    Lines 102-117 corrected: a depth-first search that marks a file when it is
    popped, so the batch is the whole closure of the first remaining key.
   */
  method CycleBatch(g: Graph, rem: seq<Path>) returns (cycleBatch: set<Path>)
    requires rem != [] && forall f :: f in rem ==> f in g.imports
    ensures cycleBatch == Reach(g, Elems(rem), rem[0])
  {
    var rs := Elems(rem);
    var start := rem[0];
    ReachContainsStart(g, rs, start);
    cycleBatch := {};
    var stack := [start];
    while stack != []
      invariant SearchInvariant(g, rs, start, cycleBatch, stack)
      decreases |rs - cycleBatch|, |stack|
    {
      var current := stack[|stack| - 1];
      if current in cycleBatch {
        SkipMarked(g, rs, start, cycleBatch, stack);
        stack := stack[..|stack| - 1];
        continue;
      }
      var marked, pushed := Visit(g, rs, start, current, cycleBatch, stack[..|stack| - 1]);
      VisitKeeps(g, rs, start, cycleBatch, stack, marked, pushed);
      MarkShrinks(rs, cycleBatch, current);
      cycleBatch, stack := marked, pushed;
    }
    forall b | b in Reach(g, rs, start) ensures b in cycleBatch {
      ClosedContainsReach(g, rs, cycleBatch, start, b);
    }
  }

  /** Lines 110-116 as written: each remaining file `current`'s tokens name joins the batch and is pushed. */
  method AddTargets(g: Graph, rs: set<Path>, current: Path, batch: set<Path>, stack: seq<Path>)
    returns (batch': set<Path>, pushed: seq<Path>)
    requires current in g.imports
    ensures forall x :: x in batch' <==> x in batch || x in g.Targets(current) * rs
    ensures forall x :: x in pushed <==> x in stack || x in g.Targets(current) * rs
  {
    batch', pushed := batch, stack;
    var deps := g.imports[current];
    while deps != {}
      invariant deps <= g.imports[current]
      invariant forall x :: x in batch' ==> x in batch || x in g.Targets(current) * rs
      invariant forall x :: x in pushed ==> x in stack || x in g.Targets(current) * rs
      invariant batch <= batch' && forall x :: x in stack ==> x in pushed
      invariant forall d :: d in g.imports[current] && d !in deps && DepFilename(d) in g.lookup && g.lookup[DepFilename(d)] in rs ==>
        g.lookup[DepFilename(d)] in batch' && g.lookup[DepFilename(d)] in pushed
      decreases |deps|
    {
      var d :| d in deps;
      var depFilename := DepFilename(d);
      if depFilename in g.lookup {
        var fullDepPath := g.lookup[depFilename];
        if fullDepPath in rs {
          batch' := batch' + {fullDepPath};
          pushed := pushed + [fullDepPath];
        }
      }
      deps := deps - {d};
    }
  }

  /**
    Lines 102-117 as written: a dependency joins `cycle_batch` when it is
    pushed, so the `if current in cycle_batch: continue` on line 108 skips it
    when it is popped and its own dependencies are never explored.
   */
  method CycleBatchAsWritten(g: Graph, rem: seq<Path>) returns (cycleBatch: set<Path>)
    requires rem != [] && forall f :: f in rem ==> f in g.imports
    ensures cycleBatch == {rem[0]} + g.Targets(rem[0]) * Elems(rem)
  {
    var rs := Elems(rem);
    var start := rem[0];
    cycleBatch := {};
    var stack := [start];
    while stack != []
      invariant (cycleBatch == {} && stack == [start])
        || (cycleBatch == {start} + g.Targets(start) * rs && forall x :: x in stack ==> x in cycleBatch)
      decreases if cycleBatch == {} then 1 else 0, |stack|
    {
      var current := stack[|stack| - 1];
      ghost var before := stack;
      stack := stack[..|stack| - 1];
      assert forall x :: x in stack ==> x in before;
      if current in cycleBatch {
        continue;
      }
      cycleBatch := cycleBatch + {current};
      cycleBatch, stack := AddTargets(g, rs, current, cycleBatch, stack);
    }
  }

  lemma AppendAssoc<T>(a: seq<T>, b: seq<T>, c: seq<T>)
    ensures (a + b) + c == a + (b + c)
  {
  }

  /** Lines 72-119: one round of the loop, proved to pick `NextBatch`. */
  method ChooseBatch(g: Graph, rem: seq<Path>) returns (b: Batch)
    requires rem != [] && forall f :: f in rem ==> f in g.imports
    ensures b == NextBatch(g, rem)
    ensures Schedule(g, rem) == [b] + Schedule(g, Without(rem, b.Files()))
  {
    var readyFiles := ReadyFiles(g, rem);
    if readyFiles != [] {
      var nextFile := Smallest(readyFiles);
      return Singleton(nextFile);
    }
    var cycleBatch := CycleBatch(g, rem);
    return CycleGroup(cycleBatch);
  }

  /** Lines 71-123: the worklist loop over the dependency map, proved to produce `Schedule`. */
  method ScheduleBatches(g: Graph, keys: seq<Path>) returns (batches: seq<Batch>)
    requires forall f :: f in keys ==> f in g.imports
    ensures batches == Schedule(g, keys)
  {
    batches := [];
    var rem := keys;
    while rem != []
      invariant forall f :: f in rem ==> f in keys
      invariant batches + Schedule(g, rem) == Schedule(g, keys)
      decreases |rem|
    {
      var b := ChooseBatch(g, rem);
      var rest := Without(rem, b.Files());
      WithoutSpec(rem, b.Files());
      AppendAssoc(batches, [b], Schedule(g, rest));
      batches := batches + [b];
      rem := rest;
    }
  }

  /** One round of the loop as written, its cycle branch being `CycleBatchAsWritten`. */
  method ChooseBatchAsWritten(g: Graph, rem: seq<Path>) returns (b: Batch)
    requires rem != [] && forall f :: f in rem ==> f in g.imports
    ensures b == NextBatchAsWritten(g, rem)
    ensures ScheduleAsWritten(g, rem) == [b] + ScheduleAsWritten(g, Without(rem, b.Files()))
  {
    var readyFiles := ReadyFiles(g, rem);
    if readyFiles != [] {
      var nextFile := Smallest(readyFiles);
      return Singleton(nextFile);
    }
    var cycleBatch := CycleBatchAsWritten(g, rem);
    return CycleGroup(cycleBatch);
  }

  /** The worklist loop as written, proved to produce `ScheduleAsWritten`. */
  method ScheduleBatchesAsWritten(g: Graph, keys: seq<Path>) returns (batches: seq<Batch>)
    requires forall f :: f in keys ==> f in g.imports
    ensures batches == ScheduleAsWritten(g, keys)
  {
    batches := [];
    var rem := keys;
    while rem != []
      invariant forall f :: f in rem ==> f in keys
      invariant batches + ScheduleAsWritten(g, rem) == ScheduleAsWritten(g, keys)
      decreases |rem|
    {
      var b := ChooseBatchAsWritten(g, rem);
      var rest := Without(rem, b.Files());
      WithoutSpec(rem, b.Files());
      AppendAssoc(batches, [b], ScheduleAsWritten(g, rest));
      batches := batches + [b];
      rem := rest;
    }
  }

  /** The schedule as written still places every key in exactly one non-empty batch. */
  lemma ScheduleAsWrittenPartition(g: Graph, rem: seq<Path>)
    ensures var s := ScheduleAsWritten(g, rem);
      && (forall i :: 0 <= i < |s| ==> s[i].Files() != {} && s[i].Files() <= Elems(rem))
      && (forall x :: x in rem ==> exists i :: 0 <= i < |s| && x in s[i].Files())
      && (forall i, j, x :: 0 <= i < j < |s| && x in s[i].Files() ==> x !in s[j].Files())
  {
    RunPartition(StepAsWritten(g), rem);
  }

  /** Line 63: `{f: get_imports_robust(f) for f in files}`, for files that can all be read. */
  ghost function DependencyMap(files: seq<Path>, fs: map<Path, string>, parse: string -> Option<Node>): map<Path, set<string>>
    requires forall f :: f in files ==> f in fs
  {
    map f | f in files :: ImportsOf(UniversalNewlines(fs[f]), parse(UniversalNewlines(fs[f])))
  }

  /**
    Line 63 step by step: each file is read (text mode) and reduced to its
    imports; opening a missing file raises, which aborts the whole call.
   */
  method BuildDependencyMap(files: seq<Path>, fs: map<Path, string>, parse: string -> Option<Node>)
    returns (r: Result<map<Path, set<string>>, Path>)
    ensures r.Failure? <==> exists f :: f in files && f !in fs
    ensures r.Failure? ==> exists i :: (0 <= i < |files| && files[i] == r.error && files[i] !in fs
      && forall j :: 0 <= j < i ==> files[j] in fs)
    ensures r.Success? ==> r.value == DependencyMap(files, fs, parse)
  {
    var depMap: map<Path, set<string>> := map[];
    for i := 0 to |files|
      invariant forall j :: 0 <= j < i ==> files[j] in fs
      invariant depMap == DependencyMap(files[..i], fs, parse)
    {
      var f := files[i];
      if f !in fs {
        return Failure(f);
      }
      var content := UniversalNewlines(fs[f]);
      var imports := GetImportsRobust(content, parse(content));
      depMap := depMap[f := imports];
      assert files[..i + 1] == files[..i] + [f];
    }
    assert files[..|files|] == files;
    return Success(depMap);
  }

  /**
    `build_sequential_batches(files)` with the file system as a map from path to
    stored text and `ast.parse` as the given `parse`.
   */
  method BuildSequentialBatches(files: seq<Path>, fs: map<Path, string>, parse: string -> Option<Node>)
    returns (r: Result<seq<Batch>, Path>)
    ensures r.Failure? <==> exists f :: f in files && f !in fs
    ensures r.Success? ==> r.value == Schedule(Graph(Lookup(files), DependencyMap(files, fs, parse)), Dedup(files))
    ensures files == [] ==> r == Success([])
  {
    var depMap := BuildDependencyMap(files, fs, parse);
    if depMap.Failure? {
      return Failure(depMap.error);
    }
    var g := Graph(Lookup(files), depMap.value);
    var batches := ScheduleBatches(g, Dedup(files));
    return Success(batches);
  }

  /** `build_sequential_batches(files)` exactly as written, with the one-level cycle search of line 116. */
  method BuildSequentialBatchesAsWritten(files: seq<Path>, fs: map<Path, string>, parse: string -> Option<Node>)
    returns (r: Result<seq<Batch>, Path>)
    ensures r.Failure? <==> exists f :: f in files && f !in fs
    ensures r.Success? ==>
      r.value == ScheduleAsWritten(Graph(Lookup(files), DependencyMap(files, fs, parse)), Dedup(files))
    ensures files == [] ==> r == Success([])
  {
    var depMap := BuildDependencyMap(files, fs, parse);
    if depMap.Failure? {
      return Failure(depMap.error);
    }
    var g := Graph(Lookup(files), depMap.value);
    var batches := ScheduleBatchesAsWritten(g, Dedup(files));
    return Success(batches);
  }
}
