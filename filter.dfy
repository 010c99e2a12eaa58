/**
 * Trimming a dependency: the keep predicate handed to `ast.FilterFile`
 * (main.go:125-128) and `processPackageRewrite` (main.go:113-135), over a
 * flat list of named declarations.
 */
module Filter {
  import opened Wrappers
  import opened Syntax
  import opened Loader
  import opened Usage

  /** A declaration name survives exactly when it is a used name. */
  predicate Keep(uses: set<string>, name: string)
  {
    name in uses
  }

  /** The declarations whose names are kept, in their original order. */
  function FilterDecls(decls: seq<Decl>, uses: set<string>): (kept: seq<Decl>)
    ensures |kept| <= |decls|
  {
    if decls == [] then []
    else (if Keep(uses, decls[0].name) then [decls[0]] else []) + FilterDecls(decls[1..], uses)
  }

  /** Exactly the declarations with a used name survive: no more and no fewer. */
  lemma {:induction false} FilterDeclsMembers(decls: seq<Decl>, uses: set<string>)
    ensures forall d :: d in FilterDecls(decls, uses) <==> d in decls && Keep(uses, d.name)
  {
    if decls != [] {
      FilterDeclsMembers(decls[1..], uses);
      assert forall d :: d in decls <==> d == decls[0] || d in decls[1..];
    }
  }

  /** Filtering distributes over concatenation, so relative order is kept. */
  lemma {:induction false} FilterDeclsAppend(a: seq<Decl>, b: seq<Decl>, uses: set<string>)
    ensures FilterDecls(a + b, uses) == FilterDecls(a, uses) + FilterDecls(b, uses)
  {
    if a == [] {
      assert a + b == b;
    } else {
      var d, rest := a[0], a[1..];
      FilterDeclsAppend(rest, b, uses);
      ConsSplit(a, b);
      FilterDeclsCons(d, rest + b, uses);
      FilterDeclsCons(d, rest, uses);
      var head := if Keep(uses, d.name) then [d] else [];
      AppendAssoc(head, FilterDecls(rest, uses), FilterDecls(b, uses));
    }
  }

  lemma FilterDeclsCons(d: Decl, rest: seq<Decl>, uses: set<string>)
    ensures FilterDecls([d] + rest, uses) == (if Keep(uses, d.name) then [d] else []) + FilterDecls(rest, uses)
  {
    assert ([d] + rest)[1..] == rest;
  }

  lemma ConsSplit<T>(a: seq<T>, b: seq<T>)
    requires a != []
    ensures a == [a[0]] + a[1..] && a + b == [a[0]] + (a[1..] + b)
  {
  }

  lemma AppendAssoc<T>(x: seq<T>, y: seq<T>, z: seq<T>)
    ensures x + (y + z) == (x + y) + z
  {
  }

  /** Declarations that are all used are kept as they are: nothing is dropped. */
  lemma {:induction false} FilterDeclsKeepsAllUsed(decls: seq<Decl>, uses: set<string>)
    requires forall k :: 0 <= k < |decls| ==> decls[k].name in uses
    ensures FilterDecls(decls, uses) == decls
  {
    if decls != [] {
      FilterDeclsKeepsAllUsed(decls[1..], uses);
    }
  }

  /** Filtering twice with the same set is filtering once. */
  lemma FilterDeclsIdempotent(decls: seq<Decl>, uses: set<string>)
    ensures FilterDecls(FilterDecls(decls, uses), uses) == FilterDecls(decls, uses)
  {
    var kept := FilterDecls(decls, uses);
    FilterDeclsMembers(decls, uses);
    forall k | 0 <= k < |kept| ensures kept[k].name in uses {
      assert kept[k] in kept;
    }
    FilterDeclsKeepsAllUsed(kept, uses);
  }

  /**
   * `ast.FilterFile(file, keep)` as the printer then sees the file: import
   * declarations are always removed, and the other declarations are kept
   * when their name is used.
   */
  function FilterFile(file: File, uses: set<string>): File
  {
    File([], FilterDecls(file.decls, uses))
  }

  /** main.go:113-135: reload the dependency and trim each of its files with the final used names. */
  method ProcessPackageRewrite(exports: PkgUsing, load: Load) returns (r: Result<seq<File>, LoadError>)
    ensures PackageFromName(load(exports.path)).Failure? ==>
      r == Failure(PackageFromName(load(exports.path)).error)
    ensures PackageFromName(load(exports.path)).Success? ==>
      var files := PackageFromName(load(exports.path)).value.syntax;
      && r.Success? && |r.value| == |files|
      && forall s :: 0 <= s < |files| ==>
           && r.value[s] == FilterFile(files[s], exports.uses)
           && r.value[s].imports == []
           && forall d :: d in r.value[s].decls <==> d in files[s].decls && d.name in exports.uses
  {
    var pkg := PackageFromName(load(exports.path));
    if pkg.Failure? {
      return Failure(pkg.error);
    }
    var files := pkg.value.syntax;
    var trimmed: seq<File> := [];
    for s := 0 to |files|
      invariant |trimmed| == s
      invariant forall t :: 0 <= t < s ==> trimmed[t] == FilterFile(files[t], exports.uses)
    {
      trimmed := trimmed + [FilterFile(files[s], exports.uses)];
    }
    forall s | 0 <= s < |files| {
      FilterDeclsMembers(files[s].decls, exports.uses);
    }
    return Success(trimmed);
  }
}
