/**
  Root-module extraction for one source file (`get_imports_robust` in
  src/utils/batching.py). When the file parses, every `import` and
  `from ... import` node found by `ast.walk` contributes the first dotted
  component of its module; when it does not, two multi-line regular
  expressions, `^\s*from\s+(\w+)` and `^\s*import\s+(\w+)`, are run over the
  text instead.
 */
module Imports {
  import opened Wrappers
  import opened Strings

  /** The nodes of a parsed module that `ast.walk` distinguishes. */
  datatype Node =
    | Import(names: seq<string>)          // `import a.b, c as d`: the dotted names
    | ImportFrom(source: Option<string>)  // `from a.b import x`; None for `from . import x`
    | Other(children: seq<Node>)          // any other node, with its child nodes

  /** Every node of the tree, the root included (the order of `ast.walk` is irrelevant for a set). */
  function Walk(n: Node): (r: seq<Node>)
    ensures |r| >= 1 && r[0] == n
    decreases n, 1
  {
    match n
    case Other(children) => [n] + WalkAll(children)
    case _ => [n]
  }

  function WalkAll(ns: seq<Node>): (r: seq<Node>)
    decreases ns, 0
  {
    if ns == [] then [] else Walk(ns[0]) + WalkAll(ns[1..])
  }

  /** `name.split('.')[0]` */
  function RootModule(name: string): (r: string)
    ensures '.' !in r
    ensures StartsWith(name, r)
    ensures |r| < |name| ==> name[|r|] == '.'
  {
    if |name| == 0 || name[0] == '.' then "" else [name[0]] + RootModule(name[1..])
  }

  /** A dotted name contributes the text before its first dot. */
  lemma {:induction false} RootModuleOfDotted(first: string, rest: string)
    requires '.' !in first
    ensures RootModule(first + "." + rest) == first
    ensures RootModule(first) == first
  {
    if |first| > 0 {
      assert (first + "." + rest)[1..] == first[1..] + "." + rest;
      RootModuleOfDotted(first[1..], rest);
    } else {
      assert (first + "." + rest)[0] == '.';
    }
  }

  /** The root modules one node contributes (lines 25-36): `if node.module` is false for None and for "". */
  function NodeRoots(n: Node): set<string>
  {
    match n
    case Import(names) => set k | 0 <= k < |names| :: RootModule(names[k])
    case ImportFrom(source) =>
      if source.Some? && source.value != "" then {RootModule(source.value)} else {}
    case Other(_) => {}
  }

  /** The union of the roots contributed by a sequence of walked nodes. */
  ghost function RootsOf(nodes: seq<Node>): set<string>
  {
    set k, r | 0 <= k < |nodes| && r in NodeRoots(nodes[k]) :: r
  }

  /** The AST strategy: the roots of every import node anywhere in the tree. */
  ghost function AstImports(tree: Node): set<string>
  {
    RootsOf(Walk(tree))
  }

  /** An import nested at any depth is seen by the walk. */
  lemma {:induction false} WalkReachesChild(children: seq<Node>, k: nat, n: Node)
    requires k < |children| && n in Walk(children[k])
    ensures n in Walk(Other(children))
  {
    WalkAllContains(children, k, n);
  }

  lemma {:induction false} WalkAllContains(ns: seq<Node>, k: nat, n: Node)
    requires k < |ns| && n in Walk(ns[k])
    ensures n in WalkAll(ns)
  {
    if k > 0 {
      WalkAllContains(ns[1..], k - 1, n);
    }
  }

  // ---------------------------------------------------------------------
  // The regular-expression fallback (lines 51 and 56)
  // ---------------------------------------------------------------------

  /** `\w` restricted to ASCII: letters, digits and underscore. */
  predicate IsWordChar(c: char)
  {
    ('a' <= c <= 'z') || ('A' <= c <= 'Z') || ('0' <= c <= '9') || c == '_'
  }

  /** `^` in multi-line mode matches at the start and after every newline. */
  predicate LineStart(s: string, i: int)
  {
    0 <= i <= |s| && (i == 0 || s[i - 1] == '\n')
  }

  /** Length of the maximal run of whitespace starting at `i` (what a greedy `\s*` consumes). */
  function SpaceRun(s: string, i: nat): (n: nat)
    requires i <= |s|
    ensures i + n <= |s|
    ensures AllSpace(s[i..i + n])
    ensures i + n < |s| ==> !IsSpace(s[i + n])
    decreases |s| - i
  {
    if i == |s| || !IsSpace(s[i]) then 0
    else
      var n := SpaceRun(s, i + 1);
      assert s[i..i + 1 + n] == [s[i]] + s[i + 1..i + 1 + n];
      1 + n
  }

  /** Length of the maximal run of word characters starting at `i` (what a greedy `\w+` consumes). */
  function WordRun(s: string, i: nat): (n: nat)
    requires i <= |s|
    ensures i + n <= |s|
    ensures forall k :: i <= k < i + n ==> IsWordChar(s[k])
    ensures i + n < |s| ==> !IsWordChar(s[i + n])
    decreases |s| - i
  {
    if i == |s| || !IsWordChar(s[i]) then 0 else 1 + WordRun(s, i + 1)
  }

  /** The two keywords of the fallback; neither starts with whitespace. */
  predicate IsKeyword(kw: string)
  {
    kw == "from" || kw == "import"
  }

  /**
    What `\s+(\w+)` reads from position `p`: at least one whitespace
    character, then the maximal non-empty run of word characters, which is
    captured; the token and the end of the match.
   */
  function SpaceThenWord(s: string, p: nat): (r: Option<(string, nat)>)
    requires p <= |s|
    ensures r.Some? ==> p < |s| && IsSpace(s[p])
    ensures r.Some? ==> var token, end := r.value.0, r.value.1;
      && token != "" && p + |token| < end <= |s| && token == s[end - |token|..end]
      && AllSpace(s[p..end - |token|])
      && (forall k :: 0 <= k < |token| ==> IsWordChar(token[k]))
      && (end < |s| ==> !IsWordChar(s[end]))
  {
    var w := SpaceRun(s, p);
    var t := p + w;
    var n := WordRun(s, t);
    if w == 0 || n == 0 then None else Some((s[t..t + n], t + n))
  }

  /**
    The match of `^\s*KW\s+(\w+)` attempted at position `i`. Neither greedy
    run can give anything back, since the keyword does not start with
    whitespace and whitespace is not a word character, so at most one match
    starts at `i`.
   */
  function MatchAt(s: string, kw: string, i: nat): Option<(string, nat)>
    requires i <= |s|
  {
    if !LineStart(s, i) then None
    else
      var q := i + SpaceRun(s, i);
      if !(q + |kw| <= |s| && s[q..q + |kw|] == kw) then None
      else SpaceThenWord(s, q + |kw|)
  }

  /** `re.findall` from position `pos`: a match resumes the scan at its end, a failure one position on. */
  function FindFrom(s: string, kw: string, pos: nat): (r: seq<string>)
    requires pos <= |s| + 1
    decreases |s| + 1 - pos
  {
    if pos > |s| then []
    else
      match MatchAt(s, kw, pos)
      case Some((token, end)) =>
        if end <= pos then [] // never happens: a match is never empty
        else [token] + FindFrom(s, kw, end)
      case None => FindFrom(s, kw, pos + 1)
  }

  /** `re.findall(r'^\s*KW\s+(\w+)', content, re.MULTILINE)` */
  function FindAll(s: string, kw: string): seq<string>
  {
    FindFrom(s, kw, 0)
  }

  /** The index just after the last newline before `q` (the start of `q`'s line). */
  function LineBegin(s: string, q: nat): (b: nat)
    requires q <= |s|
    ensures b <= q && LineStart(s, b)
    ensures '\n' !in s[b..q]
  {
    if q == 0 || s[q - 1] == '\n' then q else LineBegin(s, q - 1)
  }

  /**
    The local reading of the fallback: the keyword at `q` is preceded on its
    line only by whitespace, and `token` is what `\s+(\w+)` captures after it.
   */
  predicate KeywordToken(s: string, kw: string, q: nat, token: string)
  {
    && q + |kw| <= |s| && s[q..q + |kw|] == kw
    && AllSpace(s[LineBegin(s, q)..q])
    && SpaceThenWord(s, q + |kw|).Some? && SpaceThenWord(s, q + |kw|).value.0 == token
  }

  /** A successful match at a line start is exactly the local reading of its keyword. */
  lemma MatchAtSound(s: string, kw: string, i: nat)
    requires i <= |s| && MatchAt(s, kw, i).Some?
    ensures var q := i + SpaceRun(s, i);
      KeywordToken(s, kw, q, MatchAt(s, kw, i).value.0) && MatchAt(s, kw, i).value.1 > i
  {
    var q := i + SpaceRun(s, i);
    assert LineStart(s, i);
    assert q + |kw| <= |s| && s[q..q + |kw|] == kw;
    var m := SpaceThenWord(s, q + |kw|);
    assert MatchAt(s, kw, i) == m && m.Some?;
    LineBeginSpace(s, i, q);
    assert m.value.1 > q + |kw| >= i;
  }

  /** Whitespace from a line start up to `q` includes the whitespace from `q`'s own line start. */
  lemma LineBeginSpace(s: string, i: nat, q: nat)
    requires i <= q <= |s| && LineStart(s, i) && AllSpace(s[i..q])
    ensures AllSpace(s[LineBegin(s, q)..q])
  {
    var b := LineBegin(s, q);
    LineBeginAtLeast(s, i, q);
    SpaceSuffix(s[i..q], b - i);
    assert s[i..q][b - i..] == s[b..q];
  }

  lemma SpaceSuffix(s: string, k: nat)
    requires k <= |s| && AllSpace(s)
    ensures AllSpace(s[k..])
  {
    assert forall j :: 0 <= j < |s| - k ==> s[k..][j] == s[k + j];
  }

  lemma {:induction false} LineBeginAtLeast(s: string, i: nat, q: nat)
    requires i <= q <= |s| && LineStart(s, i)
    ensures i <= LineBegin(s, q)
    decreases q
  {
    if q > 0 && s[q - 1] != '\n' && q > i {
      LineBeginAtLeast(s, i, q - 1);
    }
  }

  /** Every token of the fallback is the local reading of some keyword at or after `pos`. */
  lemma {:induction false} FindFromSound(s: string, kw: string, pos: nat, token: string)
    requires pos <= |s| + 1 && token in FindFrom(s, kw, pos)
    ensures exists q :: pos <= q <= |s| && KeywordToken(s, kw, q, token)
    decreases |s| + 1 - pos
  {
    match MatchAt(s, kw, pos)
    case Some((t, end)) =>
      if end > pos {
        if token == t {
          MatchAtSound(s, kw, pos);
          var q := pos + SpaceRun(s, pos);
          assert KeywordToken(s, kw, q, token);
        } else {
          FindFromSound(s, kw, end, token);
        }
      }
    case None =>
      FindFromSound(s, kw, pos + 1, token);
  }

  /**
    Completeness: a match that starts at `p` is found by a scan from `pos` unless
    an earlier match runs past `p` (the only way findall can skip a line start).
   */
  lemma {:induction false} FindFromComplete(s: string, kw: string, pos: nat, p: nat)
    requires pos <= p <= |s| && MatchAt(s, kw, p).Some?
    requires forall i :: pos <= i < p && MatchAt(s, kw, i).Some? ==> MatchAt(s, kw, i).value.1 <= p
    ensures MatchAt(s, kw, p).value.0 in FindFrom(s, kw, pos)
    decreases p - pos
  {
    if pos == p {
      MatchAtSound(s, kw, pos);
    } else {
      match MatchAt(s, kw, pos)
      case Some((t, end)) =>
        MatchAtSound(s, kw, pos);
        FindFromComplete(s, kw, end, p);
      case None =>
        FindFromComplete(s, kw, pos + 1, p);
    }
  }

  /** On a single line only a match at the very start is possible. */
  lemma {:induction false} SingleLineNoLaterMatch(s: string, kw: string, pos: nat)
    requires 0 < pos <= |s| + 1 && '\n' !in s
    ensures FindFrom(s, kw, pos) == []
    decreases |s| + 1 - pos
  {
    if pos <= |s| {
      assert s[pos - 1] in s;
      SingleLineNoLaterMatch(s, kw, pos + 1);
    }
  }

  /** `import os, sys` contributes only `os`: the fallback captures one word per line. */
  lemma ImportListYieldsFirstName()
    ensures FindAll("import os, sys", "import") == ["os"]
  {
    var s := "import os, sys";
    ImportListFirstMatch();
    ImportListOneLine();
    SingleLineNoLaterMatch(s, "import", 9);
  }

  lemma ImportListFirstMatch()
    ensures MatchAt("import os, sys", "import", 0) == Some(("os", 9))
  {
    var s := "import os, sys";
    assert SpaceRun(s, 0) == 0 by { assert !IsSpace(s[0]); }
    assert s[0..6] == "import";
    assert SpaceRun(s, 6) == 1 by { assert SpaceRun(s, 7) == 0; }
    assert WordRun(s, 7) == 2 by { assert WordRun(s, 9) == 0; }
    assert s[7..9] == "os";
  }

  lemma ImportListOneLine()
    ensures '\n' !in "import os, sys"
  {
    var s := "import os, sys";
    assert forall k :: 0 <= k < |s| ==> s[k] != '\n';
  }

  /** `from .pkg import x` contributes nothing to the `from` pattern: a dot cannot start `\w+`. */
  lemma RelativeFromYieldsNothing()
    ensures FindAll("from .pkg import x", "from") == []
  {
    var s := "from .pkg import x";
    assert SpaceRun(s, 0) == 0 by { assert !IsSpace(s[0]); }
    assert s[0..4] == "from";
    assert SpaceRun(s, 4) == 1 by { assert !IsSpace(s[5]); }
    assert WordRun(s, 5) == 0;
    assert MatchAt(s, "from", 0) == None;
    RelativeFromOneLine();
    SingleLineNoLaterMatch(s, "from", 1);
  }

  /** Nor to the `import` pattern: the line does not start with `import`. */
  lemma FromLineYieldsNoImport()
    ensures FindAll("from .pkg import x", "import") == []
  {
    var s := "from .pkg import x";
    assert SpaceRun(s, 0) == 0 by { assert !IsSpace(s[0]); }
    assert s[0..6] != "import" by { assert s[0..6][0] == 'f'; }
    assert MatchAt(s, "import", 0) == None;
    RelativeFromOneLine();
    SingleLineNoLaterMatch(s, "import", 1);
  }

  lemma RelativeFromOneLine()
    ensures '\n' !in "from .pkg import x"
  {
    var s := "from .pkg import x";
    assert forall k :: 0 <= k < |s| ==> s[k] != '\n';
  }

  /** The set the fallback adds: `imports.update(...)` for both patterns. */
  function RegexImports(content: string): set<string>
  {
    var froms := FindAll(content, "from");
    var plain := FindAll(content, "import");
    (set t | t in froms) + (set t | t in plain)
  }

  /** What `get_imports_robust` returns, given the file's text and the outcome of `ast.parse`. */
  ghost function ImportsOf(content: string, parsed: Option<Node>): set<string>
  {
    if parsed.Some? then AstImports(parsed.value) else RegexImports(content)
  }

  /** Every fallback token is the word after a line-leading `from` or `import` keyword. */
  lemma RegexImportsSound(content: string, token: string)
    requires token in RegexImports(content)
    ensures exists kw: string, q: nat :: IsKeyword(kw) && q <= |content| && KeywordToken(content, kw, q, token)
  {
    if token in FindAll(content, "from") {
      KeywordTokenFound(content, "from", token);
    } else {
      KeywordTokenFound(content, "import", token);
    }
  }

  lemma KeywordTokenFound(content: string, kw: string, token: string)
    requires IsKeyword(kw) && token in FindAll(content, kw)
    ensures exists kw': string, q: nat :: IsKeyword(kw') && q <= |content| && KeywordToken(content, kw', q, token)
  {
    FindFromSound(content, kw, 0, token);
    var q: nat :| q <= |content| && KeywordToken(content, kw, q, token);
  }

  /**
    `get_imports_robust` (lines 5-58), after the file has been read: the AST walk
    when `ast.parse` succeeded, the two regular expressions otherwise.
   */
  method GetImportsRobust(content: string, parsed: Option<Node>) returns (imports: set<string>)
    ensures imports == ImportsOf(content, parsed)
  {
    imports := {};
    if parsed.Some? {
      var nodes := Walk(parsed.value);
      for i := 0 to |nodes|
        invariant imports == RootsOf(nodes[..i])
      {
        var node := nodes[i];
        match node {
          case Import(names) =>
            for j := 0 to |names|
              invariant imports == RootsOf(nodes[..i]) + (set k | 0 <= k < j :: RootModule(names[k]))
            {
              imports := imports + {RootModule(names[j])};
            }
          case ImportFrom(source) =>
            if source.Some? && source.value != "" {
              imports := imports + {RootModule(source.value)};
            }
          case Other(_) =>
        }
        RootsOfSnoc(nodes, i);
      }
      assert nodes[..|nodes|] == nodes;
      return;
    }
    var froms := FindAll(content, "from");
    imports := imports + (set t | t in froms);
    var plain := FindAll(content, "import");
    imports := imports + (set t | t in plain);
  }

  lemma RootsOfSnoc(nodes: seq<Node>, i: nat)
    requires i < |nodes|
    ensures RootsOf(nodes[..i + 1]) == RootsOf(nodes[..i]) + NodeRoots(nodes[i])
  {
    var a, b := nodes[..i + 1], nodes[..i];
    forall r | r in RootsOf(a) ensures r in RootsOf(b) + NodeRoots(nodes[i]) {
      var k :| 0 <= k < |a| && r in NodeRoots(a[k]);
      if k < i { assert a[k] == b[k]; }
    }
    forall r | r in NodeRoots(nodes[i]) ensures r in RootsOf(a) {
      assert a[i] == nodes[i];
    }
    forall r | r in RootsOf(b) ensures r in RootsOf(a) {
      var k :| 0 <= k < |b| && r in NodeRoots(b[k]);
      assert a[k] == b[k];
    }
  }
}
