/**
 * A small abstract syntax tree standing in for Go's `go/ast`, reduced to the
 * node kinds the tree shaker looks at.
 *
 * `ast.Inspect` walks a node and then its children in source order; the
 * children of each kind are given by the `match` arms of the walkers below
 * and of `Collect`. The `Sel` identifier of a selector is also a child in
 * `go/ast`, but no callback of the tree shaker reacts to a bare identifier,
 * so it is kept as a plain string here.
 */
module Syntax {
  import opened Wrappers

  datatype Node =
    | Ident(name: string)                   // *ast.Ident
    | Selector(x: Node, sel: string)        // *ast.SelectorExpr  x.sel
    | Index(x: Node, index: Node)           // *ast.IndexExpr     x[index]
    | Call(fun: Node, args: seq<Node>)      // *ast.CallExpr      fun(args...)
    | Other(children: seq<Node>)            // every other statement or expression

  /** An import path literal as the Go parser produces it: quotes included. */
  type PathLit = s: string | |s| >= 2 witness "\"\""

  /** *ast.ImportSpec: an optional explicit local name and the path literal. */
  datatype ImportSpec = ImportSpec(name: Option<string>, path: PathLit)

  /**
   * Top-level declarations. A function (or method) keeps the nodes of its
   * receiver and type apart from its body, because the reachability walk only
   * reads the body; every other declaration is reduced to the one name it
   * declares and the expressions it holds.
   */
  datatype Decl =
    | FuncDecl(name: string, signature: seq<Node>, body: seq<Node>)
    | GenDecl(name: string, nodes: seq<Node>)

  /** *ast.File: its imports and its declarations, in source order. */
  datatype File = File(imports: seq<ImportSpec>, decls: seq<Decl>)

  /** *packages.Package as loaded with NeedName | NeedFiles | NeedSyntax. */
  datatype Package = Package(pkgPath: string, syntax: seq<File>, compiledGoFiles: seq<string>)

  /** Every node the walk of one declaration visits at top level, in order. */
  function DeclNodes(d: Decl): seq<Node>
  {
    match d
    case FuncDecl(_, signature, body) => signature + body
    case GenDecl(_, nodes) => nodes
  }

  /** The top-level nodes of a whole file, declaration after declaration. */
  function FileNodes(decls: seq<Decl>): (r: seq<Node>)
    ensures forall i, k :: 0 <= i < |decls| && 0 <= k < |DeclNodes(decls[i])| ==> DeclNodes(decls[i])[k] in r
  {
    if decls == [] then []
    else
      var rest := FileNodes(decls[1..]);
      assert forall i :: 1 <= i < |decls| ==> decls[i] == decls[1..][i - 1];
      DeclNodes(decls[0]) + rest
  }
}
