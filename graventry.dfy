// The embedded interpreter's entry point (py/gravEntry.py, and its earlier
// revision py/entry.py): resolve the directory and file a module string
// names, put the directory at the front of sys.path, import the module and
// call the named function, then take the directory out again. Importing
// and calling are outside the model: their outcome is a parameter that
// depends on the module name, the function name and sys.path at import.
module GravEntry {
  import opened Wrappers
  import Seqs
  import Text

  /** What importing the module and calling the function did: returned a
      result or raised. */
  datatype Outcome<T> = Succeeds(result: T) | Fails

  /** The directory to search and the file name a module string names: a
      bare name is looked up in the working directory's py directory; a
      path is split at its last separator. */
  function Resolve(moduleArg: string, cwd: string, sep: char): (r: (string, string))
  {
    if sep !in moduleArg then (cwd + [sep] + "py", moduleArg)
    else
      var toks := Text.Split(moduleArg, sep);
      (Text.Join(toks[..|toks| - 1], sep), toks[|toks| - 1])
  }

  /** A string holding the separator splits into at least two pieces. */
  lemma SplitAtSeparator(s: string, c: char)
    requires c in s
    ensures |Text.Split(s, c)| >= 2
  {
    Text.JoinSplit(s, c);
  }

  /** A path module string is rebuilt by the directory, the separator and
      the file name, and the file name holds no separator. */
  lemma ResolveRebuilds(moduleArg: string, cwd: string, sep: char)
    requires sep in moduleArg
    ensures Resolve(moduleArg, cwd, sep).0 + [sep] + Resolve(moduleArg, cwd, sep).1 == moduleArg
    ensures sep !in Resolve(moduleArg, cwd, sep).1
  {
    var toks := Text.Split(moduleArg, sep);
    SplitAtSeparator(moduleArg, sep);
    Text.JoinLast(toks, sep);
    Text.JoinSplit(moduleArg, sep);
  }

  /** A bare module name is searched for in cwd/py and is itself the file
      name. */
  lemma ResolveBareName(moduleArg: string, cwd: string, sep: char)
    requires sep !in moduleArg
    ensures Resolve(moduleArg, cwd, sep).1 == moduleArg
    ensures Resolve(moduleArg, cwd, sep).0[..|cwd|] == cwd && Resolve(moduleArg, cwd, sep).0[|cwd|..] == [sep] + "py"
  {
  }

  /** The name imported: the file name up to its first '.'. */
  function ModuleName(filename: string): (name: string)
    ensures '.' !in name
    ensures name == filename[..Seqs.IndexOf(filename, '.')]
  {
    Text.Split(filename, '.')[0]
  }

  /** sys.path. */
  class SysPath {
    var entries: seq<string>

    constructor (initial: seq<string>)
      ensures entries == initial
    {
      entries := initial;
    }

    /** list.insert. */
    method Insert(i: nat, x: string)
      requires i <= |entries|
      modifies this`entries
      ensures entries == old(entries)[..i] + [x] + old(entries)[i..]
    {
      entries := entries[..i] + [x] + entries[i..];
    }

    /** list.remove: the first occurrence goes; an absent value raises
        ValueError (found is false) and changes nothing. */
    method Remove(x: string) returns (found: bool)
      modifies this`entries
      ensures found <==> x in old(entries)
      ensures entries == Seqs.RemoveFirst(old(entries), x)
    {
      var i := Seqs.Position(entries, x);
      found := i < |entries|;
      if found {
        entries := Seqs.RemoveAt(entries, i);
      }
    }
  }

  /** Taking out the first occurrence of what was just put at the front
      restores the list. */
  lemma RemoveFront(s: seq<string>, x: string)
    ensures Seqs.RemoveFirst([x] + s, x) == s
  {
    assert Seqs.IndexOf([x] + s, x) == 0;
    assert Seqs.RemoveAt([x] + s, 0) == s;
  }

  /** entryFunc: on success the callee's result comes back unchanged and
      sys.path is as it was; on failure the answer is None and the searched
      directory stays at the front of sys.path. */
  method EntryFunc<T>(moduleArg: string, func: string, cwd: string, sep: char, sys: SysPath,
                      run: (string, string, seq<string>) -> Outcome<T>) returns (res: Option<T>)
    modifies sys`entries
    ensures var (path, filename) := Resolve(moduleArg, cwd, sep);
            var outcome := run(ModuleName(filename), func, [path] + old(sys.entries));
            (outcome.Succeeds? ==> res == Some(outcome.result) && sys.entries == old(sys.entries)) &&
            (outcome.Fails? ==> res == None && sys.entries == [path] + old(sys.entries))
  {
    var (path, filename) := Resolve(moduleArg, cwd, sep);
    var finalModuleName := ModuleName(filename);
    ghost var before := sys.entries;
    sys.Insert(0, path);
    assert sys.entries == [path] + before;
    var outcome := run(finalModuleName, func, sys.entries);
    if outcome.Fails? {
      return None;
    }
    RemoveFront(before, path);
    var _ := sys.Remove(path);
    res := Some(outcome.result);
  }
}
