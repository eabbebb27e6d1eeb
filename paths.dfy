/**
  POSIX path helpers as Python's `posixpath` defines them: `basename`,
  `dirname` and two-argument `join`. The separator `os.sep` is '/', and
  `os.pathsep` is ':'.
 */
module Paths {
  import opened Strings

  const Sep: char := '/'
  const PathSep: char := ':'

  /** `p.rfind('/') + 1`: the index just after the last separator, or 0 when there is none. */
  function AfterLastSep(p: string): (i: nat)
    ensures i <= |p|
    ensures i > 0 ==> p[i - 1] == Sep
    ensures Sep !in p[i..]
  {
    if |p| == 0 then 0
    else if p[|p| - 1] == Sep then |p|
    else AfterLastSep(p[..|p| - 1])
  }

  /** `os.path.basename(p)` */
  function Basename(p: string): (r: string)
    ensures Sep !in r
    ensures |r| <= |p|
  {
    p[AfterLastSep(p)..]
  }

  /** The basename is the part of the path after its last separator. */
  lemma BasenameSuffix(p: string)
    ensures EndsWith(p, Basename(p))
    ensures |Basename(p)| < |p| ==> p[|p| - |Basename(p)| - 1] == Sep
  {
  }

  /** Only separators. */
  predicate AllSep(s: string)
  {
    forall k :: 0 <= k < |s| ==> s[k] == Sep
  }

  /** `s.rstrip('/')` */
  function RStripSep(s: string): (r: string)
    ensures |r| <= |s| && r == s[..|r|]
    ensures r != "" ==> r[|r| - 1] != Sep
    ensures AllSep(s[|r|..])
  {
    if |s| == 0 || s[|s| - 1] != Sep then s else RStripSep(s[..|s| - 1])
  }

  /** `os.path.dirname(p)` */
  function Dirname(p: string): (r: string)
  {
    var head := p[..AfterLastSep(p)];
    if head != "" && !AllSep(head) then RStripSep(head) else head
  }

  /** `os.path.join(a, b)` */
  function Join(a: string, b: string): (r: string)
  {
    if StartsWith(b, [Sep]) then b
    else if a == "" || EndsWith(a, [Sep]) then a + b
    else a + [Sep] + b
  }

  /** Joining a directory and a plain file name, then taking the basename, gives the name back. */
  lemma BasenameOfJoin(dir: string, name: string)
    requires Sep !in name && name != ""
    ensures Basename(Join(dir, name)) == name
  {
    var j := Join(dir, name);
    assert !StartsWith(name, [Sep]) by { assert name[0] != Sep by { assert name[0] in name; } }
    assert j == j[..|j| - |name|] + name;
    AfterLastSepOfSuffix(j[..|j| - |name|], name);
  }

  /** Joining a non-empty directory not ending in a separator with a plain name, then taking the dirname, gives the directory back. */
  lemma DirnameOfJoin(dir: string, name: string)
    requires Sep !in name && name != ""
    requires dir != "" && dir[|dir| - 1] != Sep
    ensures Dirname(Join(dir, name)) == dir
  {
    assert !StartsWith(name, [Sep]) by { assert name[0] != Sep by { assert name[0] in name; } }
    assert !EndsWith(dir, [Sep]);
    var j := Join(dir, name);
    assert j == (dir + [Sep]) + name;
    AfterLastSepOfSuffix(dir + [Sep], name);
    assert j[..AfterLastSep(j)] == dir + [Sep];
    assert !AllSep(dir + [Sep]) by { assert (dir + [Sep])[|dir| - 1] != Sep; }
    assert RStripSep(dir + [Sep]) == RStripSep(dir);
  }

  lemma {:induction false} AfterLastSepOfSuffix(a: string, b: string)
    requires Sep !in b
    requires a == "" || a[|a| - 1] == Sep
    ensures AfterLastSep(a + b) == |a|
  {
    if |b| == 0 {
      assert a + b == a;
    } else {
      var ab := a + b;
      assert ab[|ab| - 1] == b[|b| - 1] && b[|b| - 1] in b;
      assert ab[..|ab| - 1] == a + b[..|b| - 1];
      AfterLastSepOfSuffix(a, b[..|b| - 1]);
    }
  }
}
