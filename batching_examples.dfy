/**
  Worked schedules for small dependency graphs: a chain, a two-file cycle,
  and a three-file ring on which the depth-first search as written splits
  the cycle.
 */
module BatchingExamples {
  import opened Strings
  import opened Batching

  /** A graph whose files are named by their own basenames. */
  function Named(imports: map<Path, set<string>>): Graph
  {
    Graph(map["a.py" := "a.py", "b.py" := "b.py", "c.py" := "c.py"], imports)
  }

  const Keys: seq<Path> := ["a.py", "b.py", "c.py"]

  lemma KeysElems()
    ensures Elems(Keys) == {"a.py", "b.py", "c.py"}
    ensures Elems(["a.py", "b.py"]) == {"a.py", "b.py"}
    ensures Elems(["a.py"]) == {"a.py"}
  {
  }

  lemma FileNames()
    ensures DepFilename("a") == "a.py" && DepFilename("b") == "b.py" && DepFilename("c") == "c.py"
  {
  }

  lemma NamesOne(g: Graph, d: string)
    requires DepFilename(d) in g.lookup
    ensures g.Names({d}) == {g.lookup[DepFilename(d)]}
  {
  }

  lemma ReadyAmongSnoc(g: Graph, rs: set<Path>, xs: seq<Path>, x: Path)
    ensures ReadyAmong(g, rs, xs + [x]) == ReadyAmong(g, rs, xs) + (if Ready(g, rs, x) then [x] else [])
  {
    assert (xs + [x])[..|xs|] == xs;
  }

  /** The ready files among `a`, `b` (and `c`), in that order. */
  lemma ReadyAmongKeys(g: Graph, rs: set<Path>)
    ensures ReadyAmong(g, rs, ["a.py"]) == if Ready(g, rs, "a.py") then ["a.py"] else []
    ensures ReadyAmong(g, rs, ["a.py", "b.py"]) == ReadyAmong(g, rs, ["a.py"]) + (if Ready(g, rs, "b.py") then ["b.py"] else [])
    ensures ReadyAmong(g, rs, Keys) == ReadyAmong(g, rs, ["a.py", "b.py"]) + (if Ready(g, rs, "c.py") then ["c.py"] else [])
  {
    ReadyAmongSnoc(g, rs, [], "a.py");
    ReadyAmongSnoc(g, rs, ["a.py"], "b.py");
    ReadyAmongSnoc(g, rs, ["a.py", "b.py"], "c.py");
    assert [] + ["a.py"] == ["a.py"];
    assert ["a.py"] + ["b.py"] == ["a.py", "b.py"];
    assert ["a.py", "b.py"] + ["c.py"] == Keys;
  }

  // -------------------------------------------------------------------
  // A chain: a imports b, b imports c
  // -------------------------------------------------------------------

  function Chain(): Graph
  {
    Named(map["a.py" := {"b"}, "b.py" := {"c"}, "c.py" := {}])
  }

  lemma ChainTargets()
    ensures Chain().Targets("a.py") == {"b.py"}
    ensures Chain().Targets("b.py") == {"c.py"}
    ensures Chain().Targets("c.py") == {}
  {
    FileNames();
    NamesOne(Chain(), "b");
    NamesOne(Chain(), "c");
  }

  lemma ChainRound1()
    ensures NextBatch(Chain(), Keys) == Singleton("c.py")
    ensures Without(Keys, {"c.py"}) == ["a.py", "b.py"]
  {
    ChainTargets();
    KeysElems();
    var rs := Elems(Keys);
    assert !Ready(Chain(), rs, "a.py") by { assert "b.py" in Chain().Targets("a.py") * rs; }
    assert !Ready(Chain(), rs, "b.py") by { assert "c.py" in Chain().Targets("b.py") * rs; }
    assert Ready(Chain(), rs, "c.py");
    ReadyAmongKeys(Chain(), rs);
  }

  lemma ChainRound2()
    ensures NextBatch(Chain(), ["a.py", "b.py"]) == Singleton("b.py")
    ensures Without(["a.py", "b.py"], {"b.py"}) == ["a.py"]
  {
    ChainTargets();
    KeysElems();
    var rem: seq<Path> := ["a.py", "b.py"];
    var rs := Elems(rem);
    assert !Ready(Chain(), rs, "a.py") by { assert "b.py" in Chain().Targets("a.py") * rs; }
    assert Ready(Chain(), rs, "b.py") by { assert Chain().Targets("b.py") * rs == {}; }
    ReadyAmongKeys(Chain(), rs);
  }

  lemma ChainRound3()
    ensures NextBatch(Chain(), ["a.py"]) == Singleton("a.py")
    ensures Without(["a.py"], {"a.py"}) == []
  {
    ChainTargets();
    KeysElems();
    assert ReadyAmong(Chain(), {"a.py"}, ["a.py"]) == ["a.py"];
  }

  /** A chain is scheduled leaf first, one file per batch. */
  lemma ChainScheduledLeafFirst()
    ensures Schedule(Chain(), Keys) == [Singleton("c.py"), Singleton("b.py"), Singleton("a.py")]
  {
    var next := Step(Chain());
    ChainRound1();
    ChainRound2();
    ChainRound3();
    RunStep(next, Keys);
    RunStep(next, ["a.py", "b.py"]);
    RunStep(next, ["a.py"]);
  }

  // -------------------------------------------------------------------
  // A two-file cycle: a imports b, b imports a
  // -------------------------------------------------------------------

  function Pair(): Graph
  {
    Named(map["a.py" := {"b"}, "b.py" := {"a"}])
  }

  /** Two files that import each other form one batch. */
  lemma PairScheduledTogether()
    ensures Schedule(Pair(), ["a.py", "b.py"]) == [CycleGroup({"a.py", "b.py"})]
  {
    var g, rem := Pair(), ["a.py", "b.py"];
    FileNames();
    NamesOne(g, "a");
    NamesOne(g, "b");
    KeysElems();
    var rs := Elems(rem);
    assert !Ready(g, rs, "a.py") by { assert "b.py" in g.Targets("a.py") * rs; }
    assert !Ready(g, rs, "b.py") by { assert "a.py" in g.Targets("b.py") * rs; }
    ReadyAmongKeys(g, rs);
    ReachContainsStart(g, rs, "a.py");
    ReachStep(g, rs, "a.py", "a.py", "b.py");
    assert Reach(g, rs, "a.py") == rs;
    assert Without(rem, rs) == [];
    RunStep(Step(g), rem);
  }

  // -------------------------------------------------------------------
  // A three-file ring: a imports b, b imports c, c imports a
  // -------------------------------------------------------------------

  function Ring(): Graph
  {
    Named(map["a.py" := {"b"}, "b.py" := {"c"}, "c.py" := {"a"}])
  }

  lemma RingTargets()
    ensures Ring().Targets("a.py") == {"b.py"}
    ensures Ring().Targets("b.py") == {"c.py"}
    ensures Ring().Targets("c.py") == {"a.py"}
  {
    FileNames();
    NamesOne(Ring(), "a");
    NamesOne(Ring(), "b");
    NamesOne(Ring(), "c");
  }

  lemma RingNothingReady()
    ensures ReadyAmong(Ring(), Elems(Keys), Keys) == []
  {
    RingTargets();
    KeysElems();
    var rs := Elems(Keys);
    assert !Ready(Ring(), rs, "a.py") by { assert "b.py" in Ring().Targets("a.py") * rs; }
    assert !Ready(Ring(), rs, "b.py") by { assert "c.py" in Ring().Targets("b.py") * rs; }
    assert !Ready(Ring(), rs, "c.py") by { assert "a.py" in Ring().Targets("c.py") * rs; }
    ReadyAmongKeys(Ring(), rs);
  }

  /** The corrected search keeps the whole ring in one batch. */
  lemma RingScheduledTogether()
    ensures Schedule(Ring(), Keys) == [CycleGroup({"a.py", "b.py", "c.py"})]
  {
    var g := Ring();
    RingTargets();
    RingNothingReady();
    KeysElems();
    var rs := Elems(Keys);
    ReachContainsStart(g, rs, "a.py");
    ReachStep(g, rs, "a.py", "a.py", "b.py");
    ReachStep(g, rs, "a.py", "b.py", "c.py");
    assert Reach(g, rs, "a.py") == rs;
    WithoutAll(Keys, rs);
    RunStep(Step(g), Keys);
  }

  /**
    The search as written puts only the first file and its direct imports in
    the batch: `b.py` lands in the first batch while the file it imports,
    `c.py`, is left for a later one.
   */
  lemma RingSplitAsWritten()
    ensures ScheduleAsWritten(Ring(), Keys) == [CycleGroup({"a.py", "b.py"}), Singleton("c.py")]
    ensures "c.py" in Ring().Targets("b.py")
  {
    RingTargets();
    RingFirstRoundAsWritten();
    RingSecondRoundAsWritten();
    RunStep(StepAsWritten(Ring()), Keys);
    RunStep(StepAsWritten(Ring()), ["c.py"]);
  }

  lemma RingFirstRoundAsWritten()
    ensures NextBatchAsWritten(Ring(), Keys) == CycleGroup({"a.py", "b.py"})
    ensures Without(Keys, {"a.py", "b.py"}) == ["c.py"]
  {
    RingTargets();
    RingNothingReady();
    KeysElems();
  }

  lemma RingSecondRoundAsWritten()
    ensures NextBatchAsWritten(Ring(), ["c.py"]) == Singleton("c.py")
    ensures Without(["c.py"], {"c.py"}) == []
  {
    var g := Ring();
    RingTargets();
    assert Elems(["c.py"]) == {"c.py"};
    assert Ready(g, {"c.py"}, "c.py") by { assert g.Targets("c.py") * {"c.py"} == {}; }
    ReadyAmongSnoc(g, {"c.py"}, [], "c.py");
    assert [] + ["c.py"] == ["c.py"];
  }
}
