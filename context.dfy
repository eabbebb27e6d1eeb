/**
  The signature summaries given to the agents: `get_file_signatures` prints
  the top level of a parsed module, `get_single_file_signature` frames it
  with the file name, and `build_project_context` collects one entry per
  file name.

  `ast.parse` is a function from source text to a parse outcome; the tree
  keeps only what the printer looks at, and `ast.unparse` of an annotation is
  the text stored in the tree. Reading a file is a function that may fail.
 */
module Context {
  import opened Wrappers
  import opened Strings
  import opened Sequences
  import Paths

  /** An assignment target: a name, an attribute `value.attr`, or anything else (tuples, subscripts). */
  datatype Target = Name(id: string) | Attribute(value: Target, attr: string) | OtherTarget

  /** A positional parameter and the unparsed text of its annotation, if any. */
  datatype Arg = Arg(name: string, annotation: Option<string>)

  /** The statements the printer distinguishes; `Other` covers every other kind, async defs included. */
  datatype Stmt =
    | ClassDef(name: string, body: seq<Stmt>)
    | FunctionDef(name: string, args: seq<Arg>, returnType: Option<string>, body: seq<Stmt>)
    | Assign(targets: seq<Target>)
    | AnnAssign(target: Target, annotation: string)
    | Other

  /** What `ast.parse` does with a text: a module body, a `SyntaxError`, or another exception. */
  datatype Parse = Parsed(body: seq<Stmt>) | SyntaxError | Raises

  /** `get_arg_type`: the name, followed by `: T` when annotated. */
  function ArgText(a: Arg): string
  {
    if a.annotation.Some? then a.name + ": " + a.annotation.value else a.name
  }

  /** `get_return_type`: ` -> R` when there is a return annotation, "" otherwise. */
  function ReturnText(returnType: Option<string>): string
  {
    if returnType.Some? then " -> " + returnType.value else ""
  }

  /** An annotation shows in the argument text exactly when there is one. */
  lemma ArgTextIff(a: Arg)
    ensures ArgText(a) == a.name <==> a.annotation.None?
    ensures a.annotation.Some? ==> ArgText(a)[..|a.name|] == a.name && ArgText(a)[|a.name|..] == ": " + a.annotation.value
  {
    if a.annotation.Some? {
      assert |ArgText(a)| > |a.name|;
    }
  }

  /** The return annotation shows exactly when there is one. */
  lemma ReturnTextIff(returnType: Option<string>)
    ensures ReturnText(returnType) == "" <==> returnType.None?
  {
    if returnType.Some? {
      assert |ReturnText(returnType)| >= 4;
    }
  }

  function ArgTexts(args: seq<Arg>): (r: seq<string>)
    ensures |r| == |args| && forall k :: 0 <= k < |args| ==> r[k] == ArgText(args[k])
  {
    seq(|args|, k requires 0 <= k < |args| => ArgText(args[k]))
  }

  /** `def name(a, b: T) -> R`, after `indent`. */
  function DefLine(indent: string, name: string, args: seq<Arg>, returnType: Option<string>): string
  {
    indent + "def " + name + "(" + Join(ArgTexts(args), ", ") + ")" + ReturnText(returnType)
  }

  /** The line of a `Name` target of a class-level assignment. */
  function NameTargetLines(t: Target): seq<string>
  {
    if t.Name? then ["    " + t.id] else []
  }

  /** The lines of a class-level attribute: annotated, or each name it assigns. */
  function AttributeLines(item: Stmt): seq<string>
  {
    match item
    case AnnAssign(target, annotation) =>
      ["    " + (if target.Name? then target.id else "?") + ": " + annotation]
    case Assign(targets) => FlatMap(targets, NameTargetLines)
    case _ => []
  }

  /** The line of an assignment target `self.attr`. */
  function SelfTargetLines(t: Target): seq<string>
  {
    if t.Attribute? && t.value.Name? && t.value.id == "self" then ["        self." + t.attr] else []
  }

  /** The lines of a statement directly in `__init__`. */
  function SelfAttributeLines(stmt: Stmt): seq<string>
  {
    if stmt.Assign? then FlatMap(stmt.targets, SelfTargetLines) else []
  }

  /** The lines of a method: its signature, then for `__init__` the attributes it assigns on `self`. */
  function MethodLines(item: Stmt): seq<string>
  {
    if item.FunctionDef? then
      [DefLine("    ", item.name, item.args, item.returnType)]
        + (if item.name == "__init__" then FlatMap(item.body, SelfAttributeLines) else [])
    else []
  }

  /** The lines of a top-level statement. */
  function StmtLines(node: Stmt): seq<string>
  {
    match node
    case ClassDef(name, body) =>
      ["class " + name + ":"] + FlatMap(body, AttributeLines) + FlatMap(body, MethodLines)
    case FunctionDef(name, args, returnType, _) => [DefLine("", name, args, returnType)]
    case _ => []
  }

  /** The lines printed for a module body. */
  function ModuleLines(body: seq<Stmt>): seq<string>
  {
    FlatMap(body, StmtLines)
  }

  /** `get_file_signatures(code_content)`; `Failure` is an exception other than `SyntaxError` escaping `ast.parse`. */
  function FileSignatures(parse: string -> Parse, content: string): Result<string, string>
  {
    match parse(content)
    case SyntaxError => Success("Error parsing.")
    case Raises => Failure("exception")
    case Parsed(body) => Success(Join(ModuleLines(body), "\n"))
  }

  method AppendNameTargets(signatures: seq<string>, targets: seq<Target>) returns (r: seq<string>)
    ensures r == signatures + FlatMap(targets, NameTargetLines)
  {
    r := signatures;
    for j := 0 to |targets|
      invariant r == signatures + FlatMap(targets[..j], NameTargetLines)
    {
      ghost var before := r;
      if targets[j].Name? {
        r := r + ["    " + targets[j].id];
      }
      FlatMapStep(signatures, targets, j, NameTargetLines, r);
    }
    assert targets[..|targets|] == targets;
  }

  method AppendSelfTargets(signatures: seq<string>, targets: seq<Target>) returns (r: seq<string>)
    ensures r == signatures + FlatMap(targets, SelfTargetLines)
  {
    r := signatures;
    for j := 0 to |targets|
      invariant r == signatures + FlatMap(targets[..j], SelfTargetLines)
    {
      ghost var before := r;
      var target := targets[j];
      if target.Attribute? && target.value.Name? && target.value.id == "self" {
        r := r + ["        self." + target.attr];
      }
      FlatMapStep(signatures, targets, j, SelfTargetLines, r);
    }
    assert targets[..|targets|] == targets;
  }

  /** The lines of one class-level statement, appended: an annotated attribute or each assigned name. */
  method AppendAttribute(signatures: seq<string>, item: Stmt) returns (r: seq<string>)
    ensures r == signatures + AttributeLines(item)
  {
    r := signatures;
    if item.AnnAssign? {
      var attrName := if item.target.Name? then item.target.id else "?";
      r := r + ["    " + attrName + ": " + item.annotation];
    } else if item.Assign? {
      r := AppendNameTargets(r, item.targets);
    }
  }

  /** First pass over a class body: the attributes. */
  method AppendAttributes(signatures: seq<string>, body: seq<Stmt>) returns (r: seq<string>)
    ensures r == signatures + FlatMap(body, AttributeLines)
  {
    r := signatures;
    for j := 0 to |body|
      invariant r == signatures + FlatMap(body[..j], AttributeLines)
    {
      ghost var before := r;
      r := AppendAttribute(r, body[j]);
      FlatMapStep(signatures, body, j, AttributeLines, r);
    }
    assert body[..|body|] == body;
  }

  /** The loop over the body of `__init__`: the attributes it assigns on `self`. */
  method AppendInitAttributes(signatures: seq<string>, body: seq<Stmt>) returns (r: seq<string>)
    ensures r == signatures + FlatMap(body, SelfAttributeLines)
  {
    r := signatures;
    for k := 0 to |body|
      invariant r == signatures + FlatMap(body[..k], SelfAttributeLines)
    {
      ghost var before := r;
      var stmt := body[k];
      if stmt.Assign? {
        r := AppendSelfTargets(r, stmt.targets);
      }
      FlatMapStep(signatures, body, k, SelfAttributeLines, r);
    }
    assert body[..|body|] == body;
  }

  /** The lines of one class-level statement that is a method, appended. */
  method AppendMethod(signatures: seq<string>, item: Stmt) returns (r: seq<string>)
    ensures r == signatures + MethodLines(item)
  {
    r := signatures;
    if item.FunctionDef? {
      r := r + [DefLine("    ", item.name, item.args, item.returnType)];
      if item.name == "__init__" {
        r := AppendInitAttributes(r, item.body);
      }
    }
  }

  /** Second pass over a class body: the methods, with the `self` attributes of `__init__`. */
  method AppendMethods(signatures: seq<string>, body: seq<Stmt>) returns (r: seq<string>)
    ensures r == signatures + FlatMap(body, MethodLines)
  {
    r := signatures;
    for j := 0 to |body|
      invariant r == signatures + FlatMap(body[..j], MethodLines)
    {
      ghost var before := r;
      r := AppendMethod(r, body[j]);
      FlatMapStep(signatures, body, j, MethodLines, r);
    }
    assert body[..|body|] == body;
  }

  /** The lines of one top-level statement, appended. */
  method AppendStmt(signatures: seq<string>, node: Stmt) returns (r: seq<string>)
    ensures r == signatures + StmtLines(node)
  {
    r := signatures;
    if node.ClassDef? {
      r := r + ["class " + node.name + ":"];
      r := AppendAttributes(r, node.body);
      r := AppendMethods(r, node.body);
    } else if node.FunctionDef? {
      r := r + [DefLine("", node.name, node.args, node.returnType)];
    }
  }

  /** The loop of `get_file_signatures` over the module body. */
  method Signatures(body: seq<Stmt>) returns (signatures: seq<string>)
    ensures signatures == ModuleLines(body)
  {
    signatures := [];
    for i := 0 to |body|
      invariant signatures == FlatMap(body[..i], StmtLines)
    {
      signatures := AppendStmt(signatures, body[i]);
      FlatMapStep([], body, i, StmtLines, signatures);
    }
    assert body[..|body|] == body;
  }

  /** `get_file_signatures(code_content)` */
  method GetFileSignatures(parse: string -> Parse, content: string) returns (r: Result<string, string>)
    ensures r == FileSignatures(parse, content)
  {
    match parse(content)
    case SyntaxError => return Success("Error parsing.");
    case Raises => return Failure("exception");
    case Parsed(body) =>
      var signatures := Signatures(body);
      return Success(Join(signatures, "\n"));
  }

  /** A module without classes or functions prints nothing. */
  lemma NoDefinitionsNoSignatures(body: seq<Stmt>)
    requires forall s :: s in body ==> !s.ClassDef? && !s.FunctionDef?
    ensures ModuleLines(body) == []
    ensures Join(ModuleLines(body), "\n") == ""
  {
    forall s | s in body ensures StmtLines(s) == [] {
    }
    FlatMapNone(body, StmtLines);
  }

  /** Each top-level statement contributes its own lines, in order: a module body is the sum of its parts. */
  lemma ModuleLinesAppend(a: seq<Stmt>, b: seq<Stmt>)
    ensures ModuleLines(a + b) == ModuleLines(a) + ModuleLines(b)
  {
    FlatMapAppend(a, b, StmtLines);
  }

  lemma {:induction false} FlatMapAppend<T, U>(a: seq<T>, b: seq<T>, f: T -> seq<U>)
    ensures FlatMap(a + b, f) == FlatMap(a, f) + FlatMap(b, f)
  {
    if |a| > 0 {
      assert (a + b)[1..] == a[1..] + b;
      FlatMapAppend(a[1..], b, f);
    } else {
      assert a + b == b;
    }
  }

  /** The `self` attributes follow only a method named `__init__`; any other method is one line. */
  lemma OnlyInitListsSelf(name: string, args: seq<Arg>, returnType: Option<string>, body: seq<Stmt>)
    requires name != "__init__"
    ensures MethodLines(FunctionDef(name, args, returnType, body)) == [DefLine("    ", name, args, returnType)]
  {
  }

  /** A text without a line break. */
  predicate OneLine(t: string) { '\n' !in t }

  predicate TargetOneLine(t: Target)
  {
    match t
    case Name(id) => OneLine(id)
    case Attribute(value, attr) => TargetOneLine(value) && OneLine(attr)
    case OtherTarget => true
  }

  /** Every name and annotation text in the statement is a single line. */
  predicate StmtOneLine(s: Stmt)
  {
    match s
    case ClassDef(name, body) => OneLine(name) && forall t | t in body :: StmtOneLine(t)
    case FunctionDef(name, args, returnType, body) =>
      && OneLine(name)
      && (forall a | a in args :: OneLine(a.name) && (a.annotation.Some? ==> OneLine(a.annotation.value)))
      && (returnType.Some? ==> OneLine(returnType.value))
      && forall t | t in body :: StmtOneLine(t)
    case Assign(targets) => forall t | t in targets :: TargetOneLine(t)
    case AnnAssign(target, annotation) => TargetOneLine(target) && OneLine(annotation)
    case Other => true
  }

  lemma DefLineOneLine(indent: string, name: string, args: seq<Arg>, returnType: Option<string>)
    requires OneLine(indent) && OneLine(name)
    requires forall a | a in args :: OneLine(a.name) && (a.annotation.Some? ==> OneLine(a.annotation.value))
    requires returnType.Some? ==> OneLine(returnType.value)
    ensures OneLine(DefLine(indent, name, args, returnType))
  {
    var texts := ArgTexts(args);
    forall k | 0 <= k < |texts| ensures '\n' !in texts[k] {
      assert args[k] in args;
    }
    JoinLacks(texts, ", ", '\n');
  }

  lemma NameTargetOneLine(t: Target)
    requires TargetOneLine(t)
    ensures forall l :: l in NameTargetLines(t) ==> OneLine(l)
  {
  }

  lemma SelfTargetOneLine(t: Target)
    requires TargetOneLine(t)
    ensures forall l :: l in SelfTargetLines(t) ==> OneLine(l)
  {
    if t.Attribute? {
      assert OneLine(t.attr);
    }
  }

  lemma AttributeOneLine(item: Stmt)
    requires StmtOneLine(item)
    ensures forall l :: l in AttributeLines(item) ==> OneLine(l)
  {
    if item.Assign? {
      forall t, l | t in item.targets && l in NameTargetLines(t) ensures OneLine(l) {
        NameTargetOneLine(t);
      }
      FlatMapAll(item.targets, NameTargetLines, OneLine);
    }
  }

  lemma SelfAttributeOneLine(stmt: Stmt)
    requires StmtOneLine(stmt)
    ensures forall l :: l in SelfAttributeLines(stmt) ==> OneLine(l)
  {
    if stmt.Assign? {
      forall t, l | t in stmt.targets && l in SelfTargetLines(t) ensures OneLine(l) {
        SelfTargetOneLine(t);
      }
      FlatMapAll(stmt.targets, SelfTargetLines, OneLine);
    }
  }

  lemma MethodOneLine(item: Stmt)
    requires StmtOneLine(item)
    ensures forall l :: l in MethodLines(item) ==> OneLine(l)
  {
    if item.FunctionDef? {
      DefLineOneLine("    ", item.name, item.args, item.returnType);
      forall y, l | y in item.body && l in SelfAttributeLines(y) ensures OneLine(l) {
        SelfAttributeOneLine(y);
      }
      FlatMapAll(item.body, SelfAttributeLines, OneLine);
    }
  }

  lemma StmtLinesOneLine(node: Stmt)
    requires StmtOneLine(node)
    ensures forall l :: l in StmtLines(node) ==> OneLine(l)
  {
    match node
    case ClassDef(name, body) =>
      forall x, l | x in body && l in AttributeLines(x) ensures OneLine(l) {
        AttributeOneLine(x);
      }
      FlatMapAll(body, AttributeLines, OneLine);
      forall x, l | x in body && l in MethodLines(x) ensures OneLine(l) {
        MethodOneLine(x);
      }
      FlatMapAll(body, MethodLines, OneLine);
    case FunctionDef(name, args, returnType, _) =>
      DefLineOneLine("", name, args, returnType);
    case _ =>
  }

  /** The printed text splits back into exactly the signature lines. */
  lemma SignatureLinesRoundTrip(body: seq<Stmt>)
    requires forall s | s in body :: StmtOneLine(s)
    requires ModuleLines(body) != []
    ensures Split(Join(ModuleLines(body), "\n"), '\n') == ModuleLines(body)
  {
    forall x, l | x in body && l in StmtLines(x) ensures OneLine(l) {
      StmtLinesOneLine(x);
    }
    FlatMapAll(body, StmtLines, OneLine);
    var lines := ModuleLines(body);
    assert forall k :: 0 <= k < |lines| ==> '\n' !in lines[k] by {
      forall k | 0 <= k < |lines| ensures '\n' !in lines[k] {
        assert OneLine(lines[k]) by { assert lines[k] in lines; }
      }
    }
    SplitJoin(lines, '\n');
  }

  function ExampleInit(): Stmt
  {
    FunctionDef("__init__", [Arg("self", None), Arg("y", Some("int"))], None,
                [Assign([Attribute(Name("self"), "y")]), Other])
  }

  lemma ExampleInitLines()
    ensures MethodLines(ExampleInit()) == ["    def __init__(self, y: int)", "        self.y"]
  {
    var init := ExampleInit();
    InitDefLine();
    InitBodyLines();
    assert MethodLines(init) == [DefLine("    ", "__init__", init.args, None)] + FlatMap(init.body, SelfAttributeLines);
  }

  lemma InitDefLine()
    ensures DefLine("    ", "__init__", [Arg("self", None), Arg("y", Some("int"))], None) == "    def __init__(self, y: int)"
  {
    var args := [Arg("self", None), Arg("y", Some("int"))];
    InitArgTexts();
    var joined := Join(["self", "y: int"], ", ");
    assert joined == "self, y: int" by {
      assert ["self", "y: int"][1..] == ["y: int"];
      assert joined == "self" + ", " + "y: int";
    }
    assert DefLine("    ", "__init__", args, None) == "    " + "def " + "__init__" + "(" + joined + ")" + "";
  }

  lemma InitArgTexts()
    ensures ArgTexts([Arg("self", None), Arg("y", Some("int"))]) == ["self", "y: int"]
  {
    var texts := ArgTexts([Arg("self", None), Arg("y", Some("int"))]);
    assert texts[0] == "self";
    assert texts[1] == "y" + ": " + "int" == "y: int";
  }

  lemma InitBodyLines()
    ensures FlatMap([Assign([Attribute(Name("self"), "y")]), Other], SelfAttributeLines) == ["        self.y"]
  {
    var assign := Assign([Attribute(Name("self"), "y")]);
    assert "        self." + "y" == "        self.y";
    assert SelfTargetLines(Attribute(Name("self"), "y")) == ["        self.y"];
    FlatMapSingle(Attribute(Name("self"), "y"), SelfTargetLines);
    FlatMapSingle(Other, SelfAttributeLines);
    FlatMapCons(assign, [Other], SelfAttributeLines);
    assert [assign, Other] == [assign] + [Other];
  }

  lemma ExampleClassLines()
    ensures StmtLines(ClassDef("A", [AnnAssign(Name("x"), "int"), ExampleInit()]))
      == ["class A:", "    x: int", "    def __init__(self, y: int)", "        self.y"]
  {
    var init := ExampleInit();
    var x := AnnAssign(Name("x"), "int");
    assert AttributeLines(x) == ["    x: int"] by {
      assert "    " + "x" + ": " + "int" == "    x: int";
    }
    ExampleInitLines();
    FlatMapSingle(init, AttributeLines);
    FlatMapCons(x, [init], AttributeLines);
    FlatMapSingle(init, MethodLines);
    FlatMapCons(x, [init], MethodLines);
    assert [x, init] == [x] + [init];
    assert "class " + "A" + ":" == "class A:";
  }

  lemma ExampleFunctionLines()
    ensures StmtLines(FunctionDef("f", [], Some("str"), [])) == ["def f() -> str"]
  {
    assert ArgTexts([]) == [];
    assert Join([], ", ") == "";
    assert ReturnText(Some("str")) == " -> str";
    assert DefLine("", "f", [], Some("str")) == "" + "def " + "f" + "(" + "" + ")" + " -> str";
    assert "" + "def " + "f" + "(" + "" + ")" + " -> str" == "def f() -> str";
  }

  /**
    Example: `class A` with an annotated attribute `x: int` and an `__init__(self, y: int)`
    that sets `self.y`, then a statement that is neither a class nor a function, then
    `def f() -> str`.
   */
  lemma ExampleSignatures()
    ensures ModuleLines([ClassDef("A", [AnnAssign(Name("x"), "int"), ExampleInit()]), Other,
                         FunctionDef("f", [], Some("str"), [])])
      == ["class A:", "    x: int", "    def __init__(self, y: int)", "        self.y", "def f() -> str"]
  {
    var cls := ClassDef("A", [AnnAssign(Name("x"), "int"), ExampleInit()]);
    var f := FunctionDef("f", [], Some("str"), []);
    ExampleClassLines();
    ExampleFunctionLines();
    FlatMapSingle(f, StmtLines);
    FlatMapCons(Other, [f], StmtLines);
    FlatMapCons(cls, [Other, f], StmtLines);
    assert [cls, Other, f] == [cls] + ([Other] + [f]);
  }

  const Dashes := "------------------------------"

  /** The block of one file: its name, its signatures, and a rule of dashes. */
  function Frame(filename: string, sigs: string): (r: string)
    ensures StartsWith(r, "File: ") && EndsWith(r, "\n" + Dashes)
  {
    var r := "File: " + Paths.Basename(filename) + "\n" + sigs + "\n" + Dashes;
    assert r[..6] == "File: ";
    assert r[|r| - 31..] == "\n" + Dashes;
    r
  }

  /** `get_single_file_signature(filename, content)`: "" when an exception escapes the parser. */
  function SingleFileSignature(parse: string -> Parse, filename: string, content: string): (r: string)
    ensures r == "" <==> FileSignatures(parse, content).Failure?
  {
    match FileSignatures(parse, content)
    case Success(sigs) => Frame(filename, sigs)
    case Failure(_) => ""
  }

  /** The block splits into the file-name line, the signature lines and the dashes. */
  lemma FrameLines(filename: string, sigs: string)
    requires OneLine(Paths.Basename(filename))
    ensures Split(Frame(filename, sigs), '\n') == ["File: " + Paths.Basename(filename)] + Split(sigs, '\n') + [Dashes]
  {
    var head := "File: " + Paths.Basename(filename);
    var tail := sigs + ['\n'] + Dashes;
    assert '\n' !in head;
    assert Frame(filename, sigs) == head + ['\n'] + tail;
    SplitAfterPiece(head, tail, '\n');
    DashesOneLine();
    SplitTail(sigs, Dashes, '\n');
  }

  lemma DashesOneLine()
    ensures '\n' !in Dashes
  {
    assert forall k :: 0 <= k < |Dashes| ==> Dashes[k] == '-';
  }

  /** Splitting `a + sep + b` where `b` has no separator adds `b` as the last piece. */
  lemma {:induction false} SplitTail(a: string, b: string, sep: char)
    requires sep !in b
    ensures Split(a + [sep] + b, sep) == Split(a, sep) + [b]
  {
    if |a| == 0 {
      SplitAfterPiece(a, b, sep);
      SplitNoSep(b, sep);
    } else {
      var s := a + [sep] + b;
      assert s[1..] == a[1..] + [sep] + b;
      SplitTail(a[1..], b, sep);
    }
  }

  /** What the context records for one path: its signatures, or nothing when the read or the parser raises. */
  function Entry(read: string -> Option<string>, parse: string -> Parse, path: string): Option<string>
  {
    match read(path)
    case None => None
    case Some(content) =>
      match FileSignatures(parse, content)
      case Success(sigs) => Some(sigs)
      case Failure(_) => None
  }

  function Entries(read: string -> Option<string>, parse: string -> Parse): string -> Option<string>
  {
    path => Entry(read, parse, path)
  }

  /** The dictionary after the first `n` paths, each usable path's entry stored under its file name. */
  function ContextAfter(paths: seq<string>, entry: string -> Option<string>, n: nat): map<string, string>
    requires n <= |paths|
  {
    if n == 0 then map[]
    else
      var before := ContextAfter(paths, entry, n - 1);
      match entry(paths[n - 1])
      case Some(sigs) => before[Paths.Basename(paths[n - 1]) := sigs]
      case None => before
  }

  /** `build_project_context(file_paths)` */
  method BuildProjectContext(paths: seq<string>, read: string -> Option<string>, parse: string -> Parse)
    returns (contextDict: map<string, string>)
    ensures contextDict == ContextAfter(paths, Entries(read, parse), |paths|)
  {
    contextDict := map[];
    for i := 0 to |paths|
      invariant contextDict == ContextAfter(paths, Entries(read, parse), i)
    {
      var path := paths[i];
      var filename := Paths.Basename(path);
      var content := read(path);
      if content.Some? {
        var sigs := GetFileSignatures(parse, content.value);
        if sigs.Success? {
          contextDict := contextDict[filename := sigs.value];
        }
      }
    }
  }

  /** The path at index `i` has an entry and `key` as its file name. */
  predicate Provides(paths: seq<string>, entry: string -> Option<string>, i: nat, key: string)
  {
    i < |paths| && entry(paths[i]).Some? && Paths.Basename(paths[i]) == key
  }

  /** A file name is a key exactly when some path among the first `n` with an entry has it as its file name. */
  lemma {:induction false} ContextKeys(paths: seq<string>, entry: string -> Option<string>, n: nat, key: string)
    requires n <= |paths|
    ensures key in ContextAfter(paths, entry, n) <==> exists i: nat :: i < n && Provides(paths, entry, i, key)
  {
    if n > 0 {
      ContextKeys(paths, entry, n - 1, key);
      ContextStep(paths, entry, n, key);
      if exists i: nat :: i < n && Provides(paths, entry, i, key) {
        var i: nat :| i < n && Provides(paths, entry, i, key);
        assert i == n - 1 || (i < n - 1 && Provides(paths, entry, i, key));
      }
    }
  }

  /** The `n`-th path adds `key` or leaves the key set as it was. */
  lemma ContextStep(paths: seq<string>, entry: string -> Option<string>, n: nat, key: string)
    requires 0 < n <= |paths|
    ensures key in ContextAfter(paths, entry, n) <==>
      key in ContextAfter(paths, entry, n - 1) || Provides(paths, entry, n - 1, key)
  {
  }

  /** The entry for a file name comes from the last path with that name: later files overwrite earlier ones. */
  lemma {:induction false} ContextLastWins(paths: seq<string>, entry: string -> Option<string>, n: nat, i: nat)
    requires i < n <= |paths|
    requires entry(paths[i]).Some?
    requires forall j :: i < j < n && entry(paths[j]).Some? ==> Paths.Basename(paths[j]) != Paths.Basename(paths[i])
    ensures Paths.Basename(paths[i]) in ContextAfter(paths, entry, n)
    ensures ContextAfter(paths, entry, n)[Paths.Basename(paths[i])] == entry(paths[i]).value
  {
    if i < n - 1 {
      ContextLastWins(paths, entry, n - 1, i);
    }
  }
}
