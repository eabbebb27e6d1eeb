/**
  The sandbox guard of the file tool and the two file operations it protects.

  `os.path.realpath` (which consults the file system for symbolic links) is a
  canonicalisation function given as a parameter. The file system is a map from
  canonical path to the text stored there; `os.path.exists(p)` holds when the
  canonical form of `p` is a key.
 */
module FileTool {
  import opened Wrappers
  import opened Strings
  import Paths

  /** The two exceptions the tool raises, with their messages. */
  datatype FileError = PermissionError(message: string) | FileNotFoundError(message: string)

  /** `path == dir or path.startswith(dir + os.sep)` on already canonical paths. */
  predicate Within(path: string, dir: string)
  {
    path == dir || StartsWith(path, dir + [Paths.Sep])
  }

  /** `is_path_allowed(file_path, target_dir)` */
  predicate IsPathAllowed(realpath: string -> string, filePath: string, targetDir: string)
  {
    Within(realpath(filePath), realpath(targetDir))
  }

  /**
    Containment in segment terms: the directory is a prefix of the path and the
    path either ends there or continues with a separator.
   */
  lemma WithinIff(path: string, dir: string)
    ensures Within(path, dir) <==>
      StartsWith(path, dir) && (|path| == |dir| || path[|dir|] == Paths.Sep)
  {
    if StartsWith(path, dir) && |path| > |dir| && path[|dir|] == Paths.Sep {
      assert path[..|dir| + 1] == path[..|dir|] + [path[|dir|]];
    }
    if StartsWith(path, dir + [Paths.Sep]) {
      assert path[..|dir|] == (dir + [Paths.Sep])[..|dir|];
      assert path[|dir|] == (dir + [Paths.Sep])[|dir|];
    }
    if StartsWith(path, dir) && |path| == |dir| {
      assert path == path[..|dir|];
    }
  }

  /**
    A path that extends the directory's text with anything other than a
    separator (a sibling such as `/sb2/x` next to `/sb`) is rejected.
   */
  lemma SiblingRejected(dir: string, c: char, rest: string)
    requires c != Paths.Sep
    ensures !Within(dir + [c] + rest, dir)
  {
    var path := dir + [c] + rest;
    WithinIff(path, dir);
    assert path[|dir|] == c;
  }

  /** The directory itself and every path below it are allowed. */
  lemma DescendantsWithin(dir: string, rel: string)
    ensures Within(dir, dir)
    ensures Within(dir + [Paths.Sep] + rel, dir)
  {
    var path := dir + [Paths.Sep] + rel;
    assert path[..|dir| + 1] == dir + [Paths.Sep];
  }

  /** Containment is transitive: a path inside a sub-directory is inside the directory. */
  lemma WithinTransitive(a: string, b: string, c: string)
    requires Within(a, b) && Within(b, c)
    ensures Within(a, c)
  {
    WithinIff(a, b);
    WithinIff(b, c);
    WithinIff(a, c);
    assert a[..|c|] == b[..|c|] by {
      assert a[..|c|] == a[..|b|][..|c|];
    }
    if |a| > |c| && |b| > |c| {
      assert a[|c|] == a[..|b|][|c|];
    }
  }

  /**
    Because the separator is appended before the prefix test, a sandbox rooted at
    `/` admits `/` itself but no `/x` below it.
   */
  lemma RootAdmitsOnlyItself(path: string)
    requires |path| >= 2 && path[0] == Paths.Sep && path[1] != Paths.Sep
    ensures !Within(path, [Paths.Sep])
  {
    assert path != [Paths.Sep];
    assert path[..2] != [Paths.Sep, Paths.Sep] by { assert path[..2][1] == path[1]; }
  }

  /** The canonical key that `os.path.join(target_dir, filename)` designates. */
  function Key(realpath: string -> string, filename: string, targetDir: string): string
  {
    realpath(Paths.Join(targetDir, filename))
  }

  /**
    `read_file(filename, target_dir)`: the guard comes first, then the existence
    test, then the text as read back in text mode with universal newlines.
   */
  function ReadFile(files: map<string, string>, realpath: string -> string,
                    filename: string, targetDir: string): (r: Result<string, FileError>)
    ensures r.Failure? && r.error.PermissionError? <==>
      !IsPathAllowed(realpath, Paths.Join(targetDir, filename), targetDir)
    ensures r.Failure? && r.error.PermissionError? ==> r.error.message == "Lecture interdite hors sandbox !"
    ensures r.Failure? && r.error.FileNotFoundError? <==>
      IsPathAllowed(realpath, Paths.Join(targetDir, filename), targetDir) && Key(realpath, filename, targetDir) !in files
    ensures r.Failure? && r.error.FileNotFoundError? ==>
      r.error.message == "Fichier introuvable : " + Paths.Join(targetDir, filename)
    ensures r.Success? ==>
      && Key(realpath, filename, targetDir) in files
      && r.value == UniversalNewlines(files[Key(realpath, filename, targetDir)])
  {
    var fullPath := Paths.Join(targetDir, filename);
    if !IsPathAllowed(realpath, fullPath, targetDir) then
      Failure(PermissionError("Lecture interdite hors sandbox !"))
    else if realpath(fullPath) !in files then
      Failure(FileNotFoundError("Fichier introuvable : " + fullPath))
    else
      Success(UniversalNewlines(files[realpath(fullPath)]))
  }

  /** The file system the write operation acts on. */
  class FileSystem {
    var files: map<string, string>
    const realpath: string -> string

    constructor(files: map<string, string>, realpath: string -> string)
      ensures this.files == files && this.realpath == realpath
    {
      this.files := files;
      this.realpath := realpath;
    }

    /**
      `write_file(filename, target_dir, content)`: refused outside the sandbox
      with nothing changed; otherwise the file holds exactly `content` and the
      number of characters written is returned.
     */
    method WriteFile(filename: string, targetDir: string, content: string) returns (r: Result<nat, FileError>)
      modifies this
      ensures !IsPathAllowed(realpath, Paths.Join(targetDir, filename), targetDir) ==>
        r == Failure(PermissionError("Ecriture interdite hors sandbox !")) && files == old(files)
      ensures IsPathAllowed(realpath, Paths.Join(targetDir, filename), targetDir) ==>
        r == Success(|content|) && files == old(files)[Key(realpath, filename, targetDir) := content]
    {
      var fullPath := Paths.Join(targetDir, filename);
      if !IsPathAllowed(realpath, fullPath, targetDir) {
        return Failure(PermissionError("Ecriture interdite hors sandbox !"));
      }
      files := files[realpath(fullPath) := content];
      r := Success(|content|);
    }
  }

  /** Reading a file back after writing it gives the written text (with universal newlines applied). */
  lemma ReadAfterWrite(files: map<string, string>, realpath: string -> string,
                       filename: string, targetDir: string, content: string)
    requires IsPathAllowed(realpath, Paths.Join(targetDir, filename), targetDir)
    ensures ReadFile(files[Key(realpath, filename, targetDir) := content], realpath, filename, targetDir)
      == Success(UniversalNewlines(content))
    ensures '\r' !in content ==>
      ReadFile(files[Key(realpath, filename, targetDir) := content], realpath, filename, targetDir) == Success(content)
  {
  }

  /** A write leaves what every other file reads back unchanged. */
  lemma WriteLeavesOthers(files: map<string, string>, realpath: string -> string,
                          filename: string, targetDir: string, content: string,
                          other: string, otherDir: string)
    requires Key(realpath, other, otherDir) != Key(realpath, filename, targetDir)
    ensures ReadFile(files[Key(realpath, filename, targetDir) := content], realpath, other, otherDir)
      == ReadFile(files, realpath, other, otherDir)
  {
  }

  /** Example: with paths already canonical, `/sb2/x` is not inside `/sb` but `/sb/x` is. */
  lemma SiblingExample()
    ensures !IsPathAllowed(s => s, "/sb2/x", "/sb")
    ensures IsPathAllowed(s => s, "/sb/x", "/sb")
  {
    SiblingRejected("/sb", '2', "/x");
    assert "/sb" + ['2'] + "/x" == "/sb2/x";
    DescendantsWithin("/sb", "x");
    assert "/sb" + [Paths.Sep] + "x" == "/sb/x";
  }

  /** Example: an absolute file name replaces the sandbox directory in the join and is then refused. */
  lemma AbsoluteNameEscapes(files: map<string, string>)
    ensures ReadFile(files, s => s, "/etc/passwd", "/sb") == Failure(PermissionError("Lecture interdite hors sandbox !"))
  {
    assert StartsWith("/etc/passwd", [Paths.Sep]);
    assert Paths.Join("/sb", "/etc/passwd") == "/etc/passwd";
    WithinIff("/etc/passwd", "/sb");
    assert "/etc/passwd"[1] != "/sb"[1];
  }
}
