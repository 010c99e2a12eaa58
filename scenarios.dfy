/**
 * Concrete inputs: the entry program of test/hexencoder/main.go, and two
 * small dependency packages that exercise the worklist and the filter.
 */
module Scenarios {
  import opened Wrappers
  import opened Syntax
  import opened Walk
  import opened Imports
  import opened Usage
  import opened Discovery
  import opened Reachability
  import opened Filter

  /**
   * test/hexencoder/main.go: imports stdhex "encoding/hex", "fmt" and "os";
   * main does `str := stdhex.EncodeToString([]byte(os.Args[1]))` and
   * `fmt.Println(str)`. The conversion `[]byte(...)` is a call whose callee
   * is a type, not an identifier.
   */
  function HexEncoderMain(): File
  {
    var conversion := Call(Other([Ident("byte")]), [Index(Selector(Ident("os"), "Args"), Other([]))]);
    var encode := Call(Selector(Ident(TrackedBinding), "EncodeToString"), [conversion]);
    var assign := Other([Ident("str"), encode]);
    var println := Other([Call(Selector(Ident("fmt"), "Println"), [Ident("str")])]);
    File(
      [ImportSpec(Some("stdhex"), Quote("encoding/hex")), ImportSpec(None, Quote("fmt")), ImportSpec(None, Quote("os"))],
      [FuncDecl("main", [], [assign, println])])
  }

  /** Only the aliased import is tracked; the others bind their last path segment. */
  lemma HexEncoderBindings()
    ensures BindingName(HexEncoderMain().imports[0]) == "stdhex"
    ensures BindingName(HexEncoderMain().imports[1]) == "fmt"
    ensures BindingName(HexEncoderMain().imports[2]) == "os"
    ensures Unquote(HexEncoderMain().imports[0].path) == "encoding/hex"
  {
    var imports := HexEncoderMain().imports;
    UnquoteWrapped('"', "fmt", '"');
    SingleSegmentBinding(imports[1]);
    UnquoteWrapped('"', "os", '"');
    SingleSegmentBinding(imports[2]);
    UnquoteWrapped('"', "encoding/hex", '"');
  }

  lemma HexEncoderRegister()
    ensures Register(map[], HexEncoderMain().imports) == map[TrackedBinding := Entry("encoding/hex", {})]
  {
    HexEncoderBindings();
    var imports := HexEncoderMain().imports;
    assert imports[..1][..0] == [] && imports[..2][..1] == imports[..1] && imports[..3][..2] == imports[..2];
    assert imports[..3] == imports;
    assert Register(map[], imports[..1]) == map[TrackedBinding := Entry("encoding/hex", {})];
  }

  lemma HexEncoderSelectors()
    ensures CollectAll(SelectorsOn(TrackedBinding), FileNodes(HexEncoderMain().decls)) == {"EncodeToString"}
  {
    var f := HexEncoderMain();
    assert f.decls[1..] == [];
    var nodes := FileNodes(f.decls);
    assert FileNodes(f.decls[1..]) == [];
    assert DeclNodes(f.decls[0]) == f.decls[0].body;
    assert nodes == f.decls[0].body;
    var v := SelectorsOn(TrackedBinding);
    var conversion := Call(Other([Ident("byte")]), [Index(Selector(Ident("os"), "Args"), Other([]))]);
    var encode := Call(Selector(Ident(TrackedBinding), "EncodeToString"), [conversion]);
    assert Collect(v, Other([Ident("byte")])) == {} by {
      assert [Ident("byte")][..0] == [];
    }
    assert Collect(v, conversion) == {} by {
      var args := [Index(Selector(Ident("os"), "Args"), Other([]))];
      assert args[..0] == [];
    }
    assert Collect(v, encode) == {"EncodeToString"} by {
      assert [conversion][..0] == [];
    }
    assert nodes[0] == Other([Ident("str"), encode]);
    assert Collect(v, nodes[0]) == {"EncodeToString"} by {
      assert [Ident("str"), encode][..1] == [Ident("str")] && [Ident("str")][..0] == [];
      assert CollectAll(v, [Ident("str"), encode]) == CollectAll(v, [Ident("str")]) + Collect(v, encode);
    }
    assert Collect(v, nodes[1]) == {} by {
      var call := Call(Selector(Ident("fmt"), "Println"), [Ident("str")]);
      assert [call][..0] == [] && [Ident("str")][..0] == [];
    }
    assert nodes[..1][..0] == [] && nodes[..2][..1] == nodes[..1] && nodes[..2] == nodes;
  }

  /** Walking nodes over a single fresh entry adds exactly the selections on its binding. */
  lemma SelectionsOnFreshEntry(b: string, path: string, nodes: seq<Node>)
    ensures AddSelections(map[b := Entry(path, {})], nodes)
         == map[b := Entry(path, CollectAll(SelectorsOn(b), nodes))]
  {
    var m := map[b := Entry(path, {})];
    assert m[b].uses + CollectAll(SelectorsOn(b), nodes) == CollectAll(SelectorsOn(b), nodes);
  }

  lemma DiscoverSingle(f: File)
    ensures Discover([f]) == AddSelections(Register(map[], f.imports), FileNodes(f.decls))
  {
    assert [f][..0] == [];
  }

  /** Discovery on the test entry gives stdhex ↦ ("encoding/hex", {EncodeToString}). */
  lemma HexEncoderDiscovery()
    ensures Discover([HexEncoderMain()]) == map[TrackedBinding := Entry("encoding/hex", {"EncodeToString"})]
  {
    var f := HexEncoderMain();
    DiscoverSingle(f);
    HexEncoderRegister();
    SelectionsOnFreshEntry(TrackedBinding, "encoding/hex", FileNodes(f.decls));
    HexEncoderSelectors();
  }

  /** A package where Foo calls Bar on an element of the package variable table; Baz is never reached. */
  function PackageA(): seq<File>
  {
    [File([], [
      FuncDecl("Foo", [], [Other([Call(Ident("Bar"), [Index(Ident("table"), Ident("i"))])])]),
      FuncDecl("Bar", [], [Other([Call(Ident("len"), [Ident("s")])])]),
      GenDecl("table", []),
      FuncDecl("Baz", [], [Other([Call(Ident("Foo"), [])])])])]
  }

  lemma PackageABodies()
    ensures BodyRefs(PackageA(), "Foo") == {"Bar", "table"}
    ensures BodyRefs(PackageA(), "Bar") == {}
    ensures BodyRefs(PackageA(), "table") == {}
  {
    var files := PackageA();
    var decls := files[0].decls;
    assert files[1..] == [];
    assert decls[1..][1..] == decls[2..] && decls[2..][1..] == decls[3..] && decls[3..][1..] == [];
    assert FirstFunc(files, "Foo") == Some(decls[0]);
    assert FirstFunc(files, "Bar") == Some(decls[1]);
    assert FirstFunc(files, "table") == None;
    assert CollectAll(References, decls[0].body) == {"Bar", "table"};
    assert CollectAll(References, decls[1].body) == {};
  }

  /** Foo, Bar and table form the least closed set that contains Foo. */
  lemma PackageANeeded()
    ensures IsNeededExports(PackageA(), {"Foo"}, {"Foo", "Bar", "table"})
  {
    var expected := {"Foo", "Bar", "table"};
    PackageABodies();
    assert Closed(PackageA(), expected);
    forall c: set<string> | {"Foo"} <= c && Closed(PackageA(), c) ensures expected <= c {
      assert "Foo" in c;
      assert BodyRefs(PackageA(), "Foo") <= c;
    }
  }

  /** Trimming with Foo, Bar and table keeps the first three declarations and drops Baz. */
  lemma PackageATrimmed()
    ensures FilterDecls(PackageA()[0].decls, {"Foo", "Bar", "table"}) == PackageA()[0].decls[..3]
  {
    var decls := PackageA()[0].decls;
    assert decls[1..][1..] == decls[2..] && decls[2..][1..] == decls[3..] && decls[3..][1..] == [];
  }

  /** Starting from Foo, the worklist ends with Foo, Bar and table, and trimming keeps exactly those declarations. */
  lemma PackageAOutcome(final: set<string>)
    requires IsNeededExports(PackageA(), {"Foo"}, final)
    ensures final == {"Foo", "Bar", "table"}
    ensures FilterDecls(PackageA()[0].decls, final) == PackageA()[0].decls[..3]
  {
    PackageANeeded();
    NeededExportsUnique(PackageA(), {"Foo"}, final, {"Foo", "Bar", "table"});
    PackageATrimmed();
  }

  /** A package where Foo only calls the builtin len. */
  function PackageB(): seq<File>
  {
    [File([], [
      FuncDecl("Foo", [], [Other([Call(Ident("len"), [Ident("s")])])]),
      FuncDecl("Other", [], [])])]
  }

  /** Only builtin calls in Foo's body: the used set stays exactly {Foo}, and no "len" entry appears. */
  lemma PackageBOutcome(final: set<string>)
    requires IsNeededExports(PackageB(), {"Foo"}, final)
    ensures final == {"Foo"}
  {
    var files := PackageB();
    var decls := files[0].decls;
    assert files[1..] == [];
    assert FirstFunc(files, "Foo") == Some(decls[0]);
    OnlyBuiltinCallsAllAddNothing(decls[0].body);
    assert Closed(files, {"Foo"});
    NeededExportsStable(files, {"Foo"}, final);
  }
}
