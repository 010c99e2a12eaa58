/**
 * Import usage discovery: the `inspect` callback (main.go:17-29) and the
 * loop of `main` that registers tracked imports and walks each entry file
 * (main.go:145-164). The global `pkgUsages` is passed explicitly.
 */
module Discovery {
  import opened Syntax
  import opened Walk
  import opened Imports
  import opened Usage

  /** Distinct bindings hold distinct records, as they do in main.go. */
  ghost predicate Distinct(pkgUsages: map<string, PkgUsing>)
  {
    forall a, b :: a in pkgUsages && b in pkgUsages && a != b ==> pkgUsages[a] != pkgUsages[b]
  }

  /** The values the records of `pkgUsages` hold now. */
  function Snapshot(pkgUsages: map<string, PkgUsing>): map<string, Entry>
    reads pkgUsages.Values
  {
    map b | b in pkgUsages :: Entry(pkgUsages[b].path, pkgUsages[b].uses)
  }

  /** `inspect`: a selector `b.M` whose base is a bound name adds `M` to that binding's uses. */
  method Inspect(n: Node, pkgUsages: map<string, PkgUsing>)
    requires Distinct(pkgUsages)
    modifies pkgUsages.Values
    ensures forall b | b in pkgUsages :: pkgUsages[b].uses == old(pkgUsages[b].uses) + Visit(SelectorsOn(b), n)
  {
    match n
    case Selector(Ident(name), sel) =>
      if name in pkgUsages {
        var l := pkgUsages[name];
        l.uses := l.uses + {sel};
      }
    case _ =>
  }

  /** `ast.Inspect(n, inspect)`: the callback at `n`, then at every node below it. */
  method InspectTree(n: Node, pkgUsages: map<string, PkgUsing>)
    requires Distinct(pkgUsages)
    modifies pkgUsages.Values
    ensures forall b | b in pkgUsages :: pkgUsages[b].uses == old(pkgUsages[b].uses) + Collect(SelectorsOn(b), n)
    decreases n, 0
  {
    Inspect(n, pkgUsages);
    match n
    case Ident(_) =>
    case Selector(x, _) =>
      InspectTree(x, pkgUsages);
    case Index(x, i) =>
      InspectTree(x, pkgUsages);
      InspectTree(i, pkgUsages);
    case Call(f, args) =>
      InspectTree(f, pkgUsages);
      InspectTrees(args, pkgUsages);
    case Other(cs) =>
      InspectTrees(cs, pkgUsages);
  }

  /** `ast.Inspect` over a list of trees, in order. */
  method InspectTrees(ns: seq<Node>, pkgUsages: map<string, PkgUsing>)
    requires Distinct(pkgUsages)
    modifies pkgUsages.Values
    ensures forall b | b in pkgUsages :: pkgUsages[b].uses == old(pkgUsages[b].uses) + CollectAll(SelectorsOn(b), ns)
    decreases ns, 1
  {
    for k := 0 to |ns|
      invariant forall b | b in pkgUsages ::
        pkgUsages[b].uses == old(pkgUsages[b].uses) + CollectAll(SelectorsOn(b), ns[..k])
    {
      assert ns[..k + 1][..k] == ns[..k];
      InspectTree(ns[k], pkgUsages);
    }
    assert ns[..|ns|] == ns;
  }

  /** The entries a list of imports creates: every tracked import (re)creates its entry with empty uses. */
  function Register(m: map<string, Entry>, imports: seq<ImportSpec>): map<string, Entry>
  {
    if imports == [] then m
    else
      var m' := Register(m, imports[..|imports| - 1]);
      var imp := imports[|imports| - 1];
      if IsTracked(imp) then m'[TrackedBinding := Entry(Unquote(imp.path), {})] else m'
  }

  /** What walking the nodes of one file adds to each entry. */
  function AddSelections(m: map<string, Entry>, nodes: seq<Node>): map<string, Entry>
  {
    map b | b in m :: Entry(m[b].path, m[b].uses + CollectAll(SelectorsOn(b), nodes))
  }

  /** The usage entries after registering and inspecting every file in order. */
  function Discover(files: seq<File>): map<string, Entry>
  {
    if files == [] then map[]
    else
      var last := files[|files| - 1];
      AddSelections(Register(Discover(files[..|files| - 1]), last.imports), FileNodes(last.decls))
  }

  /** main.go:148-163: bind each import of one file; the tracked binding gets a new, empty record. */
  method RegisterImports(imports: seq<ImportSpec>, pkgUsages: map<string, PkgUsing>)
    returns (registered: map<string, PkgUsing>)
    requires pkgUsages.Keys <= {TrackedBinding}
    ensures registered.Keys <= {TrackedBinding}
    ensures forall b | b in registered :: fresh(registered[b]) || (b in pkgUsages && registered[b] == pkgUsages[b])
    ensures Snapshot(registered) == Register(Snapshot(pkgUsages), imports)
  {
    ghost var initial := Snapshot(pkgUsages);
    registered := pkgUsages;
    for p := 0 to |imports|
      invariant registered.Keys <= {TrackedBinding}
      invariant forall b | b in registered :: fresh(registered[b]) || (b in pkgUsages && registered[b] == pkgUsages[b])
      invariant Snapshot(registered) == Register(initial, imports[..p])
    {
      RegisterLast(initial, imports, p);
      var name := BindingName(imports[p]);
      if name == TrackedBinding {
        var entry := new PkgUsing(Unquote(imports[p].path));
        SnapshotUpdate(registered, name, entry);
        registered := registered[name := entry];
      }
    }
    assert imports[..|imports|] == imports;
  }

  /** Registering one more import. */
  lemma RegisterLast(m: map<string, Entry>, imports: seq<ImportSpec>, p: nat)
    requires p < |imports|
    ensures Register(m, imports[..p + 1]) ==
      if IsTracked(imports[p]) then Register(m, imports[..p])[TrackedBinding := Entry(Unquote(imports[p].path), {})]
      else Register(m, imports[..p])
  {
    assert imports[..p + 1][..p] == imports[..p];
  }

  /** Rebinding one name changes only that name's entry in the snapshot. */
  lemma SnapshotUpdate(pkgUsages: map<string, PkgUsing>, name: string, record: PkgUsing)
    ensures Snapshot(pkgUsages[name := record]) == Snapshot(pkgUsages)[name := Entry(record.path, record.uses)]
  {
  }

  /** main.go:145-164: build `pkgUsages` from the entry package's files. */
  method DiscoverUsages(files: seq<File>) returns (pkgUsages: map<string, PkgUsing>)
    ensures Snapshot(pkgUsages) == Discover(files)
    ensures pkgUsages.Keys <= {TrackedBinding}
    ensures forall b | b in pkgUsages :: fresh(pkgUsages[b])
  {
    pkgUsages := map[];
    for s := 0 to |files|
      invariant pkgUsages.Keys <= {TrackedBinding}
      invariant forall b | b in pkgUsages :: fresh(pkgUsages[b])
      invariant Snapshot(pkgUsages) == Discover(files[..s])
    {
      pkgUsages := RegisterImports(files[s].imports, pkgUsages);
      ghost var registered := Snapshot(pkgUsages);
      InspectTrees(FileNodes(files[s].decls), pkgUsages);
      assert files[..s + 1][..s] == files[..s];
      assert Snapshot(pkgUsages) == AddSelections(registered, FileNodes(files[s].decls));
    }
    assert files[..|files|] == files;
  }

  /** Some import of the list is bound to the tracked name. */
  predicate ImportsTracked(imports: seq<ImportSpec>)
  {
    exists p :: 0 <= p < |imports| && IsTracked(imports[p])
  }

  lemma ImportsTrackedLast(imports: seq<ImportSpec>)
    requires imports != []
    ensures ImportsTracked(imports) <==>
      ImportsTracked(imports[..|imports| - 1]) || IsTracked(imports[|imports| - 1])
  {
    var init := imports[..|imports| - 1];
    if ImportsTracked(imports) {
      var p :| 0 <= p < |imports| && IsTracked(imports[p]);
      if p < |imports| - 1 {
        assert init[p] == imports[p];
      }
    }
    if ImportsTracked(init) {
      var p :| 0 <= p < |init| && IsTracked(init[p]);
      assert imports[p] == init[p];
    }
  }

  /** Registering imports none of which is tracked leaves the entries alone. */
  lemma {:induction false} RegisterUntracked(m: map<string, Entry>, imports: seq<ImportSpec>)
    requires !ImportsTracked(imports)
    ensures Register(m, imports) == m
  {
    if imports != [] {
      ImportsTrackedLast(imports);
      RegisterUntracked(m, imports[..|imports| - 1]);
    }
  }

  /** A tracked import changes only the tracked binding's entry, which then starts with no uses. */
  lemma {:induction false} RegisterTracked(m: map<string, Entry>, imports: seq<ImportSpec>)
    requires ImportsTracked(imports)
    ensures TrackedBinding in Register(m, imports)
    ensures Register(m, imports) == m[TrackedBinding := Register(m, imports)[TrackedBinding]]
    ensures Register(m, imports)[TrackedBinding].uses == {}
  {
    var init, last := imports[..|imports| - 1], imports[|imports| - 1];
    ImportsTrackedLast(imports);
    if IsTracked(last) {
      var e := Entry(Unquote(last.path), {});
      if ImportsTracked(init) {
        RegisterTracked(m, init);
        OverwriteTwice(m, TrackedBinding, Register(m, init)[TrackedBinding], e);
      } else {
        RegisterUntracked(m, init);
      }
    } else {
      RegisterTracked(m, init);
    }
  }

  lemma OverwriteTwice<K, V>(m: map<K, V>, k: K, v1: V, v2: V)
    ensures m[k := v1][k := v2] == m[k := v2]
  {
  }

  /** Registering leaves the entries alone unless a tracked import is present, which resets one entry. */
  lemma RegisterEffect(m: map<string, Entry>, imports: seq<ImportSpec>)
    ensures !ImportsTracked(imports) ==> Register(m, imports) == m
    ensures ImportsTracked(imports) ==>
      && TrackedBinding in Register(m, imports)
      && Register(m, imports) == m[TrackedBinding := Register(m, imports)[TrackedBinding]]
      && Register(m, imports)[TrackedBinding].uses == {}
  {
    if ImportsTracked(imports) {
      RegisterTracked(m, imports);
    } else {
      RegisterUntracked(m, imports);
    }
  }

  /** Some file of the list imports the tracked binding. */
  predicate SomeFileImportsTracked(files: seq<File>)
  {
    exists s :: 0 <= s < |files| && ImportsTracked(files[s].imports)
  }

  lemma SomeFileImportsTrackedLast(files: seq<File>)
    requires files != []
    ensures SomeFileImportsTracked(files) <==>
      SomeFileImportsTracked(files[..|files| - 1]) || ImportsTracked(files[|files| - 1].imports)
  {
    var init := files[..|files| - 1];
    if SomeFileImportsTracked(files) {
      var s :| 0 <= s < |files| && ImportsTracked(files[s].imports);
      if s < |files| - 1 {
        assert init[s] == files[s];
      }
    }
    if SomeFileImportsTracked(init) {
      var s :| 0 <= s < |init| && ImportsTracked(init[s].imports);
      assert files[s] == init[s];
    }
  }

  /** An entry exists exactly for the tracked binding, and only once some file imports it. */
  lemma {:induction false} DiscoverKeys(files: seq<File>)
    ensures forall b :: b in Discover(files) <==> b == TrackedBinding && SomeFileImportsTracked(files)
  {
    if files != [] {
      var init, last := files[..|files| - 1], files[|files| - 1];
      DiscoverKeys(init);
      RegisterEffect(Discover(init), last.imports);
      SomeFileImportsTrackedLast(files);
      assert Discover(files).Keys == Register(Discover(init), last.imports).Keys;
    }
  }

  /**
   * A file that imports the tracked binding again replaces its entry: the
   * uses gathered from earlier files are dropped and only this file's
   * selectors remain.
   */
  lemma ReimportResetsUses(files: seq<File>, last: File)
    requires ImportsTracked(last.imports)
    ensures TrackedBinding in Discover(files + [last])
    ensures Discover(files + [last])[TrackedBinding].uses == CollectAll(SelectorsOn(TrackedBinding), FileNodes(last.decls))
  {
    var all := files + [last];
    assert all[..|all| - 1] == files;
    RegisterEffect(Discover(files), last.imports);
  }

  /** A file that does not import the tracked binding only adds to the existing entries. */
  lemma NoReimportKeepsUses(files: seq<File>, last: File)
    requires !ImportsTracked(last.imports)
    ensures Discover(files + [last]).Keys == Discover(files).Keys
    ensures forall b | b in Discover(files) ::
      && Discover(files + [last])[b].path == Discover(files)[b].path
      && Discover(files + [last])[b].uses == Discover(files)[b].uses + CollectAll(SelectorsOn(b), FileNodes(last.decls))
  {
    var all := files + [last];
    assert all[..|all| - 1] == files;
    RegisterEffect(Discover(files), last.imports);
  }

  /** Every recorded use is the member of a selector on that binding in some entry file. */
  lemma {:induction false} DiscoveredUsesAreSelected(files: seq<File>, b: string, x: string)
    requires b in Discover(files) && x in Discover(files)[b].uses
    ensures exists s :: 0 <= s < |files| && x in CollectAll(SelectorsOn(b), FileNodes(files[s].decls))
  {
    var init, last := files[..|files| - 1], files[|files| - 1];
    var before := Register(Discover(init), last.imports);
    RegisterEffect(Discover(init), last.imports);
    if x !in CollectAll(SelectorsOn(b), FileNodes(last.decls)) {
      assert x in before[b].uses;
      assert b in Discover(init) && Discover(init)[b] == before[b];
      DiscoveredUsesAreSelected(init, b, x);
      var s :| 0 <= s < |init| && x in CollectAll(SelectorsOn(b), FileNodes(init[s].decls));
      assert init[s] == files[s];
    }
  }
}
