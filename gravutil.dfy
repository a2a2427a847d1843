// The resource-directory search path of the utility singleton and its
// version string. File existence is a predicate supplied by the caller.
module GravUtil {
  import Text

  /** Index of the first directory whose dir + file fileExists, or |dirs|. */
  function FirstFound(dirs: seq<string>, file: string, fileExists: string -> bool): (k: nat)
    ensures k <= |dirs|
    ensures k < |dirs| ==> fileExists(dirs[k] + file)
    ensures forall j :: 0 <= j < k ==> !fileExists(dirs[j] + file)
  {
    if |dirs| == 0 then 0
    else if fileExists(dirs[0] + file) then 0
    else 1 + FirstFound(dirs[1..], file, fileExists)
  }

  /** The path as addPath stores it: with a separator at the end, added only
      when missing. */
  function WithSeparator(path: string, sep: char): (p: string)
    requires |path| > 0
    ensures |p| > 0 && p[|p| - 1] == sep
    ensures p == path || p == path + [sep]
    ensures p == path <==> path[|path| - 1] == sep
  {
    if path[|path| - 1] != sep then path + [sep] else path
  }

  class ResourcePaths {
    /** The path separator character. */
    const sep: char
    /** resourceDirList, searched in order. */
    var dirs: seq<string>

    /** The initial list: the working directory and its py subdirectory, then
        the installed resource directory and its py subdirectory. */
    constructor (sep: char, resourceDir: string)
      ensures this.sep == sep
      ensures dirs == ["." + [sep], "." + [sep] + "py" + [sep], resourceDir, resourceDir + "py" + [sep]]
    {
      this.sep := sep;
      dirs := ["." + [sep], "." + [sep] + "py" + [sep], resourceDir, resourceDir + "py" + [sep]];
    }

    /** findFile: dir + file for the first directory where it fileExists, or the
        empty string. */
    method FindFile(file: string, fileExists: string -> bool) returns (full: string)
      ensures var k := FirstFound(dirs, file, fileExists);
              full == if k < |dirs| then dirs[k] + file else ""
    {
      var i := 0;
      while i < |dirs|
        invariant 0 <= i <= |dirs|
        invariant forall j :: 0 <= j < i ==> !fileExists(dirs[j] + file)
      {
        if fileExists(dirs[i] + file) {
          FirstFoundIs(dirs, file, fileExists, i);
          return dirs[i] + file;
        }
        i := i + 1;
      }
      FirstFoundIs(dirs, file, fileExists, |dirs|);
      return "";
    }

    /** addPath: put the path, with its trailing separator, in front. */
    method AddPath(path: string)
      requires |path| > 0
      modifies this`dirs
      ensures dirs == [WithSeparator(path, sep)] + old(dirs)
    {
      var p := path;
      if p[|p| - 1] != sep {
        p := p + [sep];
      }
      dirs := [p] + dirs;
    }
  }

  /** FirstFound is the first index meeting its description. */
  lemma {:induction false} FirstFoundIs(dirs: seq<string>, file: string, fileExists: string -> bool, k: nat)
    requires k <= |dirs|
    requires k < |dirs| ==> fileExists(dirs[k] + file)
    requires forall j :: 0 <= j < k ==> !fileExists(dirs[j] + file)
    ensures FirstFound(dirs, file, fileExists) == k
  {
    if k > 0 {
      FirstFoundIs(dirs[1..], file, fileExists, k - 1);
    }
  }

  /** findFile gives "" exactly when no directory holds the file (for a
      non-empty file name, a found path is never empty). */
  lemma NotFoundIffNone(dirs: seq<string>, file: string, fileExists: string -> bool)
    requires |file| > 0
    ensures var k := FirstFound(dirs, file, fileExists);
            (if k < |dirs| then dirs[k] + file else "") == "" <==>
            forall j :: 0 <= j < |dirs| ==> !fileExists(dirs[j] + file)
  {
  }

  /** After addPath(p), a file present under p is found there, ahead of every
      earlier directory; otherwise the search continues as before. */
  lemma {:induction false} AddedPathPreferred(p: string, dirs: seq<string>, file: string, fileExists: string -> bool)
    ensures fileExists(p + file) ==> FirstFound([p] + dirs, file, fileExists) == 0
    ensures !fileExists(p + file) ==> FirstFound([p] + dirs, file, fileExists) == 1 + FirstFound(dirs, file, fileExists)
  {
    assert ([p] + dirs)[1..] == dirs;
  }

  const DebugSuffix := " (Debug Build)"

  /** MAJOR.MINOR.MICRO: the three components joined with dots. */
  lemma {:induction false} JoinThree(major: string, minor: string, micro: string)
    ensures Text.Join([major, minor, micro], '.') == major + "." + minor + "." + micro
  {
    assert [major, minor, micro][1..] == [minor, micro];
    assert [minor, micro][1..] == [micro];
    assert Text.Join([micro], '.') == micro;
    assert Text.Join([minor, micro], '.') == minor + "." + micro;
  }

  /** getVersionString: MAJOR.MINOR.MICRO, with a debug-build suffix. */
  function VersionString(major: string, minor: string, micro: string, debug: bool): (v: string)
    ensures v == Text.Join([major, minor, micro], '.') + (if debug then DebugSuffix else "")
  {
    JoinThree(major, minor, micro);
    major + "." + minor + "." + micro + if debug then DebugSuffix else ""
  }

  /** A release version string reads back as its three components. */
  lemma VersionComponents(major: string, minor: string, micro: string)
    requires '.' !in major && '.' !in minor && '.' !in micro
    ensures Text.Split(VersionString(major, minor, micro, false), '.') == [major, minor, micro]
  {
    var parts := [major, minor, micro];
    assert forall i :: 0 <= i < |parts| ==> '.' !in parts[i];
    Text.SplitJoin(parts, '.');
    assert VersionString(major, minor, micro, false) == Text.Join(parts, '.') + "";
    assert Text.Join(parts, '.') + "" == Text.Join(parts, '.');
  }
}
