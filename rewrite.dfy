/**
 * The rewrite of the entry package's imports (main.go:191-195): every
 * import path is redirected into the output directory under the entry
 * package's own import path.
 */
module Rewrite {
  import opened Syntax
  import opened Imports
  import Paths

  /** The directory the trimmed copies are written to (main.go:166, 194). */
  const OutputDir: string := "goless"

  /** The elements `filepath.Join` keeps: the non-empty ones, in order. */
  function NonEmpty(elems: seq<string>): (r: seq<string>)
    ensures forall k :: 0 <= k < |r| ==> r[k] != ""
    ensures forall x :: x in r <==> x in elems && x != ""
    ensures (forall k :: 0 <= k < |elems| ==> elems[k] != "") ==> r == elems
  {
    if elems == [] then []
    else
      var rest := NonEmpty(elems[1..]);
      assert forall x :: x in elems <==> x == elems[0] || x in elems[1..];
      (if elems[0] == "" then [] else [elems[0]]) + rest
  }

  /** `filepath.Join`: the non-empty elements joined with '/'; the cleaning of `.`, `..` and `//` is not modelled. */
  function JoinPath(elems: seq<string>): string
  {
    Paths.Join(NonEmpty(elems), '/')
  }

  /** Joining the entry path, the output directory and a non-empty tail. */
  lemma JoinPathWithOutputDir(pkgPath: string, tail: string)
    requires tail != ""
    ensures JoinPath([pkgPath, OutputDir, tail]) ==
      if pkgPath == "" then OutputDir + "/" + tail else pkgPath + "/" + OutputDir + "/" + tail
  {
    var elems := [pkgPath, OutputDir, tail];
    assert elems[1..] == [OutputDir, tail] && elems[1..][1..] == [tail] && elems[1..][1..][1..] == [];
    assert NonEmpty([tail]) == [tail];
    assert NonEmpty([OutputDir, tail]) == [OutputDir, tail];
    assert Paths.Join([tail], '/') == tail;
    assert [OutputDir, tail][1..] == [tail];
    assert Paths.Join([OutputDir, tail], '/') == OutputDir + ['/'] + tail;
    if pkgPath != "" {
      assert NonEmpty(elems) == [pkgPath, OutputDir, tail];
      assert Paths.Join(elems, '/') == pkgPath + ['/'] + Paths.Join([OutputDir, tail], '/');
    } else {
      assert NonEmpty(elems) == [OutputDir, tail];
    }
  }

  /** `"` + filepath.Join(pkgPath, "goless", lit[1:]): the closing quote rides along in `lit[1:]`. */
  function RewritePath(pkgPath: string, lit: PathLit): PathLit
  {
    JoinPathWithOutputDir(pkgPath, lit[1..]);
    ['"'] + JoinPath([pkgPath, OutputDir, lit[1..]])
  }

  /**
   * A rewritten literal is still quoted with the original closing character
   * and, unquoted, names the original path inside the output directory under
   * the entry package's path (directly inside it when that path is empty).
   */
  lemma RewritePathInOutputDir(pkgPath: string, lit: PathLit)
    ensures RewritePath(pkgPath, lit)[0] == '"'
    ensures RewritePath(pkgPath, lit)[|RewritePath(pkgPath, lit)| - 1] == lit[|lit| - 1]
    ensures pkgPath != "" ==> Unquote(RewritePath(pkgPath, lit)) == pkgPath + "/" + OutputDir + "/" + Unquote(lit)
    ensures pkgPath == "" ==> Unquote(RewritePath(pkgPath, lit)) == OutputDir + "/" + Unquote(lit)
  {
    var path, close := Unquote(lit), lit[|lit| - 1];
    var tail := lit[1..];
    assert tail == path + [close];
    JoinPathWithOutputDir(pkgPath, tail);
    var prefix := if pkgPath == "" then OutputDir + "/" else pkgPath + "/" + OutputDir + "/";
    assert JoinPath([pkgPath, OutputDir, tail]) == prefix + tail;
    assert RewritePath(pkgPath, lit) == ['"'] + (prefix + path) + [close];
    UnquoteWrapped('"', prefix + path, close);
  }

  function RewriteImport(pkgPath: string, imp: ImportSpec): ImportSpec
  {
    ImportSpec(imp.name, RewritePath(pkgPath, imp.path))
  }

  /** main.go:192-195: every import of every entry file is rewritten, tracked or not; declarations are untouched. */
  method RewriteEntryImports(files: seq<File>, pkgPath: string) returns (out: seq<File>)
    ensures |out| == |files|
    ensures forall s :: 0 <= s < |files| ==>
      && out[s].decls == files[s].decls
      && |out[s].imports| == |files[s].imports|
      && forall p :: 0 <= p < |files[s].imports| ==>
           out[s].imports[p] == RewriteImport(pkgPath, files[s].imports[p])
  {
    out := [];
    for s := 0 to |files|
      invariant |out| == s
      invariant forall t :: 0 <= t < s ==>
        && out[t].decls == files[t].decls
        && |out[t].imports| == |files[t].imports|
        && forall p :: 0 <= p < |files[t].imports| ==>
             out[t].imports[p] == RewriteImport(pkgPath, files[t].imports[p])
    {
      var imports := files[s].imports;
      var rewritten: seq<ImportSpec> := [];
      for p := 0 to |imports|
        invariant |rewritten| == p
        invariant forall q :: 0 <= q < p ==> rewritten[q] == RewriteImport(pkgPath, imports[q])
      {
        rewritten := rewritten + [RewriteImport(pkgPath, imports[p])];
      }
      out := out + [File(rewritten, files[s].decls)];
    }
  }
}
