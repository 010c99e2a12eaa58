/**
 * The local binding of an import and the choice of which imports are tracked
 * (main.go:148-161).
 */
module Imports {
  import opened Wrappers
  import opened Syntax
  import Paths

  /** The one local binding the tree shaker tracks (main.go:159). */
  const TrackedBinding: string := "stdhex"

  /** `lit[1 : len(lit)-1]`: the literal without its first and last character. */
  function Unquote(lit: PathLit): (path: string)
    ensures lit == [lit[0]] + path + [lit[|lit| - 1]]
  {
    lit[1..|lit| - 1]
  }

  /** Unquoting drops exactly the two characters around the path. */
  lemma UnquoteWrapped(open: char, path: string, close: char)
    ensures Unquote([open] + path + [close]) == path
  {
    var lit: PathLit := [open] + path + [close];
    assert lit[1..|lit| - 1] == path;
  }

  /** The import path as a Go string literal. */
  function Quote(path: string): PathLit
  {
    ['"'] + path + ['"']
  }

  /**
   * The name an import is referred to by: its explicit name when there is
   * one, otherwise the last '/'-separated segment of its unquoted path.
   */
  function BindingName(imp: ImportSpec): (b: string)
    ensures imp.name.Some? ==> b == imp.name.value
    ensures imp.name.None? ==>
      var path := Unquote(imp.path);
      && '/' !in b
      && |b| <= |path| && b == path[|path| - |b|..]
      && (|b| < |path| ==> path[|path| - |b| - 1] == '/')
  {
    match imp.name
    case Some(name) => name
    case None =>
      var path := Unquote(imp.path);
      Paths.LastSegmentIsSuffix(path);
      Paths.LastSegment(path)
  }

  /** An unnamed import whose path has no '/' is bound to its whole path. */
  lemma SingleSegmentBinding(imp: ImportSpec)
    requires imp.name.None? && '/' !in Unquote(imp.path)
    ensures BindingName(imp) == Unquote(imp.path)
  {
    Paths.SplitNoSep(Unquote(imp.path), '/');
  }

  /** Whether main.go creates a usage entry for this import. */
  predicate IsTracked(imp: ImportSpec)
  {
    BindingName(imp) == TrackedBinding
  }
}
