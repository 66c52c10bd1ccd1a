/**
 * The file system as an input: the contents of every existing file by path.
 */
module FileSystem {
  import opened Wrappers
  import opened Bytes
  import opened AssemblyNames

  type Files = map<string, seq<byte>>

  predicate EndsWith(s: string, suffix: string)
  {
    |s| >= |suffix| && s[|s| - |suffix|..] == suffix
  }

  /** `Path.Combine(dir, name)` with `/` as the separator. */
  function Combine(dir: string, name: string): (r: string)
    ensures EndsWith(r, name)
    ensures dir == [] ==> r == name
    ensures name == [] ==> r == dir
    ensures |name| > 0 && name[0] == SEPARATOR ==> r == name
    ensures dir != [] && |name| > 0 && name[0] != SEPARATOR ==>
      r == dir + (if dir[|dir| - 1] == SEPARATOR then [] else [SEPARATOR]) + name
  {
    if dir == [] then name
    else if name == [] then dir
    else if name[0] == SEPARATOR then name
    else if dir[|dir| - 1] == SEPARATOR then dir + name
    else dir + [SEPARATOR] + name
  }

  /** Joining a directory and a plain file name gives back that file name. */
  lemma CombineFileName(dir: string, name: string)
    requires name != [] && SEPARATOR !in name
    ensures GetFileName(Combine(dir, name)) == name
  {
    var r := Combine(dir, name);
    var i := LastIndexOf(r, SEPARATOR);
    if dir != [] {
      var p := r[..|r| - |name|];
      assert r == p + name;
      if dir[|dir| - 1] == SEPARATOR {
        assert p == dir;
      } else {
        assert p == dir + [SEPARATOR];
      }
      assert p[|p| - 1] == SEPARATOR;
      assert i == |p| - 1 by {
        LastIndexOfSuffix(p[..|p| - 1], name, SEPARATOR);
        assert p[..|p| - 1] + [SEPARATOR] + name == r;
      }
    } else {
      assert i == -1;
    }
  }

  /** `LocateFile`: a copy in the current directory overrides the path the assembly was found at. */
  function LocateFile(fs: Files, cwd: string, defaultPath: string): Option<string>
  {
    var overridePath := Combine(cwd, GetFileName(defaultPath));
    if overridePath in fs then Some(overridePath)
    else if defaultPath in fs then Some(defaultPath)
    else None
  }

  /**
   * The located file exists and is one of the two candidates; the copy in
   * the current directory wins; nothing is located only when neither exists.
   */
  lemma LocateFileSpec(fs: Files, cwd: string, defaultPath: string)
    ensures var r, overridePath := LocateFile(fs, cwd, defaultPath), Combine(cwd, GetFileName(defaultPath));
      && (r.Some? ==> r.value in fs && (r.value == overridePath || r.value == defaultPath))
      && (overridePath in fs ==> r == Some(overridePath))
      && (r.None? <==> overridePath !in fs && defaultPath !in fs)
  {
  }
}
