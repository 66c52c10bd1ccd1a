/**
 * Canonical assembly names (`GetAssemblyName`): the file name of the path,
 * except that a satellite assembly (`*.resources.dll`) is prefixed with the
 * name of the directory it sits in, its locale.
 */
module AssemblyNames {

  /**
   * The `_style` setting: only `windows` changes how satellite names are
   * formed. `Mac` is what `--style mac` sets and `Osx` what host detection
   * sets; the two are different strings to the program.
   */
  datatype Style = Linux | Osx | Mac | Windows

  const RESOURCES_SUFFIX: string := ".resources.dll"
  const SEPARATOR: char := '/'

  /** `string.LastIndexOf(char)`. */
  function LastIndexOf(s: string, c: char): (r: int)
    ensures -1 <= r < |s|
    ensures r >= 0 ==> s[r] == c
    ensures forall i :: r < i < |s| ==> s[i] != c
  {
    if s == [] then -1
    else if s[|s| - 1] == c then |s| - 1
    else LastIndexOf(s[..|s| - 1], c)
  }

  /** `Path.GetFileName`: what follows the last separator, the whole path when there is none. */
  function GetFileName(path: string): (r: string)
    ensures SEPARATOR !in r
  {
    var i := LastIndexOf(path, SEPARATOR);
    assert forall k :: i + 1 <= k < |path| ==> path[k] != SEPARATOR;
    path[i + 1..]
  }

  /**
   * The file name is the whole of what follows the directory part: the
   * path is some prefix, empty or ending in a separator, then the name.
   */
  lemma FileNameIsLast(path: string)
    ensures |GetFileName(path)| <= |path|
    ensures var p := path[..|path| - |GetFileName(path)|];
      path == p + GetFileName(path) && (p == [] || p[|p| - 1] == SEPARATOR)
  {
    var i := LastIndexOf(path, SEPARATOR);
    var k := i + 1;
    assert GetFileName(path) == path[k..];
    assert path[..k] + path[k..] == path;
  }

  /**
   * The separator-run clean-up of `Path.CleanPath`: a separator is kept only
   * when a character other than a separator follows it, so every run of
   * separators becomes one and a trailing run disappears.
   */
  function Collapse(s: string): (r: string)
    ensures |r| <= |s|
  {
    if s == [] then []
    else if s[0] == SEPARATOR && (|s| == 1 || s[1] == SEPARATOR) then Collapse(s[1..])
    else [s[0]] + Collapse(s[1..])
  }

  /** `Path.CleanPath` with `/` as the only separator: the root alone is left as it is. */
  function CleanPath(s: string): string
  {
    if s == [SEPARATOR] then s else Collapse(s)
  }

  /**
   * `Path.GetDirectoryName` of a path that names a file: what precedes the
   * last separator ("/" for a file in the root), cleaned up by `CleanPath`.
   */
  function GetDirectoryName(path: string): string
  {
    var i := LastIndexOf(path, SEPARATOR);
    if i < 0 then "" else CleanPath(path[..if i == 0 then 1 else i])
  }

  /** A string without separators is its own clean-up. */
  lemma {:induction false} CollapsePlain(s: string)
    requires SEPARATOR !in s
    ensures Collapse(s) == s
    decreases |s|
  {
    if s != [] {
      assert s[0] != SEPARATOR;
      CollapsePlain(s[1..]);
      assert s == [s[0]] + s[1..];
    }
  }

  /** The clean-up keeps a last separator followed by a non-empty name without separators. */
  lemma {:induction false} CollapseKeepsLast(s: string, t: string)
    requires t != [] && SEPARATOR !in t
    ensures var c := Collapse(s + [SEPARATOR] + t);
      |c| > |t| && c[|c| - |t| - 1..] == [SEPARATOR] + t
    decreases |s|
  {
    var u := s + [SEPARATOR] + t;
    if s == [] {
      assert u == [SEPARATOR] + t;
      assert u[1] == t[0] != SEPARATOR;
      assert u[1..] == t;
      CollapsePlain(t);
    } else {
      assert u[1..] == s[1..] + [SEPARATOR] + t;
      CollapseKeepsLast(s[1..], t);
    }
  }

  function ToLowerAscii(c: char): char
  {
    if 'A' <= c <= 'Z' then (c as int + 32) as char else c
  }

  /** `s.EndsWith(suffix, StringComparison.OrdinalIgnoreCase)`, for ASCII case. */
  predicate EndsWithIgnoreCase(s: string, suffix: string)
  {
    |s| >= |suffix| && forall i :: 0 <= i < |suffix| ==> ToLowerAscii(s[|s| - |suffix| + i]) == ToLowerAscii(suffix[i])
  }

  predicate IsSatelliteFile(name: string)
  {
    EndsWithIgnoreCase(name, RESOURCES_SUFFIX)
  }

  /** `resourcePathSeparator`: the C# literal "\\\\" is two backslashes. */
  function ResourceSeparator(style: Style): string
  {
    if style == Windows then "\\\\" else "/"
  }

  function GetAssemblyName(path: string, style: Style): string
  {
    var name := GetFileName(path);
    if !IsSatelliteFile(name) then name
    else
      var dir := GetDirectoryName(path);
      var idx := LastIndexOf(dir, SEPARATOR);
      if idx >= 0 then dir[idx + 1..] + ResourceSeparator(style) + name else name
  }

  /** The canonical name always ends with the file name; only a satellite in a directory gets more. */
  lemma AssemblyNameShape(path: string, style: Style)
    ensures var name, r := GetFileName(path), GetAssemblyName(path, style);
      && |r| >= |name| && r[|r| - |name|..] == name
      && (!IsSatelliteFile(name) || SEPARATOR !in GetDirectoryName(path) ==> r == name)
  {
    var name := GetFileName(path);
    var dir := GetDirectoryName(path);
    var idx := LastIndexOf(dir, SEPARATOR);
    var r := GetAssemblyName(path, style);
    if IsSatelliteFile(name) && idx >= 0 {
      var prefix := dir[idx + 1..] + ResourceSeparator(style);
      assert r == prefix + name;
      assert r[|prefix|..] == name;
    } else {
      assert r == name;
      assert r[0..] == name;
    }
    if SEPARATOR !in dir {
      assert idx < 0;
    }
  }

  /** A trailing run of separators after a name is cleaned away. */
  lemma {:induction false} CollapseDropsTrailing(s: string, gap: string)
    requires s != [] && s[|s| - 1] != SEPARATOR
    requires forall i :: 0 <= i < |gap| ==> gap[i] == SEPARATOR
    ensures Collapse(s + gap) == Collapse(s)
    decreases |s|
  {
    var u := s + gap;
    assert u[1..] == s[1..] + gap;
    if |s| == 1 {
      assert Collapse(u[1..]) == [] by {
        CollapseSeparators(gap);
      }
      assert Collapse(s[1..]) == [];
    } else {
      assert u[1] == s[1];
      CollapseDropsTrailing(s[1..], gap);
    }
  }

  /** A run of separators alone cleans up to nothing. */
  lemma {:induction false} CollapseSeparators(gap: string)
    requires forall i :: 0 <= i < |gap| ==> gap[i] == SEPARATOR
    ensures Collapse(gap) == []
    decreases |gap|
  {
    if gap != [] {
      CollapseSeparators(gap[1..]);
    }
  }

  /**
   * A satellite `<root>/<locale>/<file>` is stored as `<locale><sep><file>`,
   * whatever separators `root` holds and however many separators (`gap`
   * and one more) stand between the locale and the file: `/r/a//x.resources.dll`
   * (root `/r`, locale `a`, gap `/`) is stored as `a/x.resources.dll`.
   */
  lemma SatelliteName(root: string, locale: string, gap: string, file: string, style: Style)
    requires locale != [] && SEPARATOR !in locale && SEPARATOR !in file
    requires forall i :: 0 <= i < |gap| ==> gap[i] == SEPARATOR
    requires IsSatelliteFile(file)
    ensures GetAssemblyName(root + [SEPARATOR] + locale + gap + [SEPARATOR] + file, style)
         == locale + ResourceSeparator(style) + file
  {
    var dir := root + [SEPARATOR] + locale;
    var path := dir + gap + [SEPARATOR] + file;
    assert LastIndexOf(path, SEPARATOR) == |dir + gap| by {
      LastIndexOfSuffix(dir + gap, file, SEPARATOR);
    }
    assert path[|dir + gap| + 1..] == file;
    assert path[..|dir + gap|] == dir + gap;
    assert dir + gap != [SEPARATOR];
    var c := Collapse(dir);
    assert GetDirectoryName(path) == c by {
      CollapseDropsTrailing(dir, gap);
    }
    CollapseKeepsLast(root, locale);
    var k := |c| - |locale| - 1;
    assert c == c[..k] + [SEPARATOR] + locale by {
      assert c[k..] == [SEPARATOR] + locale;
    }
    assert LastIndexOf(c, SEPARATOR) == k by {
      LastIndexOfSuffix(c[..k], locale, SEPARATOR);
    }
    assert c[k + 1..] == locale;
  }

  lemma {:induction false} LastIndexOfSuffix(s: string, t: string, c: char)
    requires c !in t
    ensures LastIndexOf(s + [c] + t, c) == |s|
    decreases |t|
  {
    var u := s + [c] + t;
    if t != [] {
      var t' := t[..|t| - 1];
      assert u[|u| - 1] == t[|t| - 1] != c;
      assert u[..|u| - 1] == s + [c] + t';
      LastIndexOfSuffix(s, t', c);
    }
  }

  /** Any other assembly `<dir>/<file>` is stored under its file name alone. */
  lemma PlainName(dir: string, file: string, style: Style)
    requires SEPARATOR !in file && !IsSatelliteFile(file)
    ensures GetAssemblyName(dir + [SEPARATOR] + file, style) == file
  {
    var path := dir + [SEPARATOR] + file;
    LastIndexOfSuffix(dir, file, SEPARATOR);
    assert path[|dir| + 1..] == file;
  }

  /** Two satellites with the same file name in different locale directories get different names. */
  lemma SatelliteNamesDiffer(root1: string, root2: string, l1: string, l2: string, file: string, style: Style)
    requires l1 != [] && l2 != [] && SEPARATOR !in l1 && SEPARATOR !in l2 && SEPARATOR !in file
    requires IsSatelliteFile(file) && l1 != l2
    ensures GetAssemblyName(root1 + [SEPARATOR] + l1 + [SEPARATOR] + file, style)
         != GetAssemblyName(root2 + [SEPARATOR] + l2 + [SEPARATOR] + file, style)
  {
    var tail := ResourceSeparator(style) + file;
    assert GetAssemblyName(root1 + [SEPARATOR] + l1 + [SEPARATOR] + file, style) == l1 + tail by {
      SatelliteName(root1, l1, [], file, style);
      assert root1 + [SEPARATOR] + l1 + [] == root1 + [SEPARATOR] + l1;
    }
    assert GetAssemblyName(root2 + [SEPARATOR] + l2 + [SEPARATOR] + file, style) == l2 + tail by {
      SatelliteName(root2, l2, [], file, style);
      assert root2 + [SEPARATOR] + l2 + [] == root2 + [SEPARATOR] + l2;
    }
    PrefixesDiffer(l1, l2, tail);
  }

  lemma PrefixesDiffer(a: string, b: string, tail: string)
    requires a != b
    ensures a + tail != b + tail
  {
    if |a| == |b| {
      assert (a + tail)[..|a|] == a && (b + tail)[..|b|] == b;
    }
  }
}
