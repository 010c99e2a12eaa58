/**
 * The reachability worklist `processPackageNeededExports` (main.go:50-111).
 *
 * Starting from the names the entry program uses, every queued name is
 * looked up as a function declaration (the first one, files and
 * declarations in order); the index-expression bases and non-builtin
 * callees of its body are marked used and queued when new. The result is
 * specified as the least set that contains the initial uses and is closed
 * under "a used function's body references are used".
 */
module Reachability {
  import opened Wrappers
  import opened Syntax
  import opened Walk
  import opened Loader
  import opened Usage

  predicate DeclaresFunc(d: Decl, name: string)
  {
    d.FuncDecl? && d.name == name
  }

  /** The first function declaration named `name` in one file. */
  function FirstFuncInDecls(decls: seq<Decl>, name: string): (r: Option<Decl>)
    ensures r.Some? ==> DeclaresFunc(r.value, name)
  {
    if decls == [] then None
    else if DeclaresFunc(decls[0], name) then Some(decls[0])
    else FirstFuncInDecls(decls[1..], name)
  }

  /** The first function declaration named `name`, scanning files in order. */
  function FirstFunc(files: seq<File>, name: string): (r: Option<Decl>)
    ensures r.Some? ==> DeclaresFunc(r.value, name)
  {
    if files == [] then None
    else
      match FirstFuncInDecls(files[0].decls, name)
      case Some(d) => Some(d)
      case None => FirstFunc(files[1..], name)
  }

  /** The search in one file finds the earliest declaration with the name, and finds none only when there is none. */
  lemma {:induction false} FirstFuncInDeclsIsFirst(decls: seq<Decl>, name: string)
    ensures FirstFuncInDecls(decls, name).Some? ==> exists k :: (0 <= k < |decls| &&
      decls[k] == FirstFuncInDecls(decls, name).value && forall j :: 0 <= j < k ==> !DeclaresFunc(decls[j], name))
    ensures FirstFuncInDecls(decls, name).None? <==> forall k :: 0 <= k < |decls| ==> !DeclaresFunc(decls[k], name)
  {
    if decls != [] && !DeclaresFunc(decls[0], name) {
      FirstFuncInDeclsIsFirst(decls[1..], name);
      if FirstFuncInDecls(decls, name).Some? {
        var k :| 0 <= k < |decls[1..]| && decls[1..][k] == FirstFuncInDecls(decls, name).value &&
          forall j :: 0 <= j < k ==> !DeclaresFunc(decls[1..][j], name);
        assert decls[k + 1] == decls[1..][k];
        forall j | 0 <= j < k + 1 ensures !DeclaresFunc(decls[j], name) {
          if j > 0 { assert decls[j] == decls[1..][j - 1]; }
        }
      } else {
        forall k | 0 <= k < |decls| ensures !DeclaresFunc(decls[k], name) {
          if k > 0 { assert decls[k] == decls[1..][k - 1]; }
        }
      }
    }
  }

  /**
   * The package-wide search finds the first file that declares the name and,
   * in it, the first declaration; it finds none only when no file declares it.
   */
  lemma {:induction false} FirstFuncIsFirst(files: seq<File>, name: string)
    ensures FirstFunc(files, name).Some? ==> exists s :: (0 <= s < |files| &&
      FirstFuncInDecls(files[s].decls, name) == FirstFunc(files, name) &&
      forall t :: 0 <= t < s ==> FirstFuncInDecls(files[t].decls, name).None?)
    ensures FirstFunc(files, name).None? <==> forall s :: 0 <= s < |files| ==> FirstFuncInDecls(files[s].decls, name).None?
  {
    if files != [] && FirstFuncInDecls(files[0].decls, name).None? {
      FirstFuncIsFirst(files[1..], name);
      if FirstFunc(files, name).Some? {
        var s :| 0 <= s < |files[1..]| && FirstFuncInDecls(files[1..][s].decls, name) == FirstFunc(files, name) &&
          forall t :: 0 <= t < s ==> FirstFuncInDecls(files[1..][t].decls, name).None?;
        assert files[s + 1] == files[1..][s];
        forall t | 0 <= t < s + 1 ensures FirstFuncInDecls(files[t].decls, name).None? {
          if t > 0 { assert files[t] == files[1..][t - 1]; }
        }
      } else {
        forall s | 0 <= s < |files| ensures FirstFuncInDecls(files[s].decls, name).None? {
          if s > 0 { assert files[s] == files[1..][s - 1]; }
        }
      }
    }
  }

  /** The names that processing the queued name `name` marks used (nothing when no function has that name). */
  function BodyRefs(files: seq<File>, name: string): set<string>
  {
    match FirstFunc(files, name)
    case None => {}
    case Some(d) => CollectAll(References, d.body)
  }

  /** A used-name set is closed when every used function's body references are used too. */
  predicate Closed(files: seq<File>, uses: set<string>)
  {
    forall x :: x in uses ==> BodyRefs(files, x) <= uses
  }

  /** The references of every function body of one file. */
  function DeclsRefs(decls: seq<Decl>): (r: set<string>)
    ensures forall k :: 0 <= k < |decls| && decls[k].FuncDecl? ==> CollectAll(References, decls[k].body) <= r
  {
    if decls == [] then {}
    else
      var rest := DeclsRefs(decls[1..]);
      assert forall k :: 1 <= k < |decls| ==> decls[k] == decls[1..][k - 1];
      (if decls[0].FuncDecl? then CollectAll(References, decls[0].body) else {}) + rest
  }

  /** The references of every function body of the package: the only names the worklist can add. */
  function AllRefs(files: seq<File>): (r: set<string>)
    ensures forall s :: 0 <= s < |files| ==> DeclsRefs(files[s].decls) <= r
  {
    if files == [] then {}
    else
      var rest := AllRefs(files[1..]);
      assert forall s :: 1 <= s < |files| ==> files[s] == files[1..][s - 1];
      DeclsRefs(files[0].decls) + rest
  }

  /** What one queued name adds is among the package's body references. */
  lemma BodyRefsInAllRefs(files: seq<File>, name: string)
    ensures BodyRefs(files, name) <= AllRefs(files)
  {
    FirstFuncIsFirst(files, name);
    match FirstFunc(files, name)
    case None =>
    case Some(d) =>
      var s :| 0 <= s < |files| && FirstFuncInDecls(files[s].decls, name) == Some(d);
      var decls := files[s].decls;
      FirstFuncInDeclsIsFirst(decls, name);
      var k :| 0 <= k < |decls| && decls[k] == d;
      assert CollectAll(References, d.body) <= DeclsRefs(decls);
  }

  /** Adding every body reference of the package to any set gives a closed set. */
  lemma AllRefsClosed(files: seq<File>, init: set<string>)
    ensures Closed(files, init + AllRefs(files))
  {
    forall x | x in init + AllRefs(files) ensures BodyRefs(files, x) <= init + AllRefs(files) {
      BodyRefsInAllRefs(files, x);
    }
  }

  /**
   * `final` is the outcome of the worklist from `init`: it contains `init`,
   * is closed, and lies inside every closed set that contains `init`.
   */
  ghost predicate IsNeededExports(files: seq<File>, init: set<string>, final: set<string>)
  {
    && init <= final
    && Closed(files, final)
    && forall c: set<string> :: init <= c && Closed(files, c) ==> final <= c
  }

  /** Processing one used name keeps the used set inside every closed set that contains the initial one. */
  lemma StepStaysLeast(files: seq<File>, init: set<string>, uses: set<string>, use: string)
    requires use in uses
    requires forall c: set<string> :: init <= c && Closed(files, c) ==> uses <= c
    ensures forall c: set<string> :: init <= c && Closed(files, c) ==> uses + BodyRefs(files, use) <= c
  {
  }

  /** The final set holds only initial names and names referenced from some function body. */
  lemma NeededExportsBounded(files: seq<File>, init: set<string>, final: set<string>)
    requires IsNeededExports(files, init, final)
    ensures final <= init + AllRefs(files)
  {
    AllRefsClosed(files, init);
  }

  /** The outcome is determined by the package and the initial set. */
  lemma NeededExportsUnique(files: seq<File>, init: set<string>, final1: set<string>, final2: set<string>)
    requires IsNeededExports(files, init, final1) && IsNeededExports(files, init, final2)
    ensures final1 == final2
  {
    assert final1 <= final2;
    assert final2 <= final1;
  }

  /** Running again from a closed set (in particular from a final set) changes nothing. */
  lemma NeededExportsStable(files: seq<File>, init: set<string>, final: set<string>)
    requires Closed(files, init) && IsNeededExports(files, init, final)
    ensures final == init
  {
    assert final <= init;
  }

  /** Scenario: an initial set that is already closed is its own outcome. */
  lemma ClosedIsOwnOutcome(files: seq<File>, init: set<string>)
    requires Closed(files, init)
    ensures IsNeededExports(files, init, init)
  {
  }

  predicate NoDup(q: seq<string>)
  {
    forall i, j :: 0 <= i < j < |q| ==> q[i] != q[j]
  }

  function Elems(q: seq<string>): set<string>
  {
    set x | x in q
  }

  /** The queue and the used-name set stay in step: same names, each queued once. */
  predicate InStep(queue: seq<string>, uses: set<string>)
  {
    NoDup(queue) && Elems(queue) == uses
  }

  /** Queueing a name that was not yet used keeps queue and set in step. */
  lemma AppendInStep(queue: seq<string>, uses: set<string>, x: string)
    requires InStep(queue, uses) && x !in uses
    ensures InStep(queue + [x], uses + {x})
  {
    assert Elems(queue + [x]) == Elems(queue) + {x};
  }

  lemma {:induction false} NoDupCard(q: seq<string>)
    requires NoDup(q)
    ensures |Elems(q)| == |q|
  {
    if q != [] {
      var init := q[..|q| - 1];
      NoDupCard(init);
      assert q == init + [q[|q| - 1]];
      assert Elems(q) == Elems(init) + {q[|q| - 1]};
      assert q[|q| - 1] !in Elems(init);
    }
  }

  lemma {:induction false} SubsetCard(a: set<string>, b: set<string>)
    requires a <= b
    ensures |a| <= |b|
    decreases a
  {
    if a != {} {
      var x :| x in a;
      SubsetCard(a - {x}, b - {x});
    }
  }

  /** main.go:56-59: one queue entry per used name, in the map's (arbitrary) order. */
  method QueueOf(uses: set<string>) returns (toprocess: seq<string>)
    ensures InStep(toprocess, uses)
  {
    toprocess := [];
    var rest := uses;
    while rest != {}
      invariant rest <= uses
      invariant InStep(toprocess, uses - rest)
      decreases rest
    {
      var k :| k in rest;
      AppendInStep(toprocess, uses - rest, k);
      assert uses - (rest - {k}) == (uses - rest) + {k};
      toprocess := toprocess + [k];
      rest := rest - {k};
    }
  }

  /** main.go:64-69, 104: the first function declaration named `name`, files then declarations in order. */
  method LookupFunc(files: seq<File>, name: string) returns (found: Option<Decl>)
    ensures found == FirstFunc(files, name)
  {
    var s := 0;
    while s < |files|
      invariant 0 <= s <= |files|
      invariant FirstFunc(files[s..], name) == FirstFunc(files, name)
    {
      var decls := files[s].decls;
      var d := 0;
      while d < |decls|
        invariant 0 <= d <= |decls|
        invariant FirstFuncInDecls(decls[d..], name) == FirstFuncInDecls(decls, name)
      {
        if DeclaresFunc(decls[d], name) {
          assert FirstFuncInDecls(decls, name) == Some(decls[d]);
          assert files[s..][0] == files[s];
          return Some(decls[d]);
        }
        assert decls[d..][1..] == decls[d + 1..];
        d := d + 1;
      }
      assert files[s..][0] == files[s] && files[s..][1..] == files[s + 1..];
      s := s + 1;
    }
    return None;
  }

  /** The closure of main.go:72-102 at one node: mark and queue an index base or a non-builtin callee. */
  method NoteReference(n: Node, exports: PkgUsing, queue: seq<string>) returns (queue': seq<string>)
    requires InStep(queue, exports.uses)
    modifies exports`uses
    ensures InStep(queue', exports.uses)
    ensures exports.uses == old(exports.uses) + Visit(References, n)
    ensures queue <= queue'
  {
    queue' := queue;
    match n
    case Index(Ident(id), _) =>
      if id !in exports.uses {
        AppendInStep(queue', exports.uses, id);
        queue' := queue' + [id];
        exports.uses := exports.uses + {id};
      }
    case Call(Ident(id), _) =>
      if id !in Builtins && id !in exports.uses {
        AppendInStep(queue', exports.uses, id);
        queue' := queue' + [id];
        exports.uses := exports.uses + {id};
      }
    case _ =>
  }

  /** `ast.Inspect` of one body statement with that closure. */
  method InspectRefs(n: Node, exports: PkgUsing, queue: seq<string>) returns (queue': seq<string>)
    requires InStep(queue, exports.uses)
    modifies exports`uses
    ensures InStep(queue', exports.uses)
    ensures exports.uses == old(exports.uses) + Collect(References, n)
    ensures queue <= queue'
    decreases n, 0
  {
    queue' := NoteReference(n, exports, queue);
    match n
    case Ident(_) =>
    case Selector(x, _) =>
      queue' := InspectRefs(x, exports, queue');
    case Index(x, i) =>
      queue' := InspectRefs(x, exports, queue');
      queue' := InspectRefs(i, exports, queue');
    case Call(f, args) =>
      queue' := InspectRefs(f, exports, queue');
      queue' := InspectRefsAll(args, exports, queue');
    case Other(cs) =>
      queue' := InspectRefsAll(cs, exports, queue');
  }

  /** main.go:71-103: every statement of a body (and every child list) in order. */
  method InspectRefsAll(ns: seq<Node>, exports: PkgUsing, queue: seq<string>) returns (queue': seq<string>)
    requires InStep(queue, exports.uses)
    modifies exports`uses
    ensures InStep(queue', exports.uses)
    ensures exports.uses == old(exports.uses) + CollectAll(References, ns)
    ensures queue <= queue'
    decreases ns, 1
  {
    queue' := queue;
    for k := 0 to |ns|
      invariant InStep(queue', exports.uses)
      invariant exports.uses == old(exports.uses) + CollectAll(References, ns[..k])
      invariant queue <= queue'
    {
      assert ns[..k + 1][..k] == ns[..k];
      queue' := InspectRefs(ns[k], exports, queue');
    }
    assert ns[..|ns|] == ns;
  }

  /**
   * The worklist invariant after `i` queue entries: queue and set in step,
   * the set between the initial uses and the package's references, every
   * processed name closed, and the set inside every closed superset of the
   * initial uses.
   */
  ghost predicate Worklist(files: seq<File>, init: set<string>, toprocess: seq<string>, i: int, uses: set<string>)
  {
    && 0 <= i <= |toprocess|
    && InStep(toprocess, uses)
    && init <= uses <= init + AllRefs(files)
    && (forall j :: 0 <= j < i ==> BodyRefs(files, toprocess[j]) <= uses)
    && (forall c: set<string> :: init <= c && Closed(files, c) ==> uses <= c)
  }

  /** main.go:63-108: process the `i`-th queued name; only its first function declaration is walked. */
  method ProcessQueued(exports: PkgUsing, files: seq<File>, toprocess: seq<string>, i: nat, ghost init: set<string>)
    returns (toprocess': seq<string>)
    requires Worklist(files, init, toprocess, i, exports.uses) && i < |toprocess|
    modifies exports`uses
    ensures Worklist(files, init, toprocess', i + 1, exports.uses)
    ensures exports.uses == old(exports.uses) + BodyRefs(files, toprocess[i])
  {
    var use := toprocess[i];
    toprocess' := toprocess;
    var found := LookupFunc(files, use);
    if found.Some? {
      toprocess' := InspectRefsAll(found.value.body, exports, toprocess);
    }
    assert exports.uses == old(exports.uses) + BodyRefs(files, use);
    BodyRefsInAllRefs(files, use);
    StepStaysLeast(files, init, old(exports.uses), use);
    forall j | 0 <= j <= i ensures BodyRefs(files, toprocess'[j]) <= exports.uses {
      assert toprocess'[j] == toprocess[j];
    }
  }

  /** main.go:56-109: the worklist, growing `exports.uses` in place until the queue is exhausted. */
  method ExpandUses(exports: PkgUsing, files: seq<File>)
    modifies exports`uses
    ensures IsNeededExports(files, old(exports.uses), exports.uses)
  {
    ghost var init := exports.uses;
    var toprocess := QueueOf(exports.uses);
    var i := 0;
    while i < |toprocess|
      invariant Worklist(files, init, toprocess, i, exports.uses)
      decreases |init + AllRefs(files)| - i
    {
      NoDupCard(toprocess);
      SubsetCard(exports.uses, init + AllRefs(files));
      toprocess := ProcessQueued(exports, files, toprocess, i, init);
      i := i + 1;
    }
    forall x | x in exports.uses ensures BodyRefs(files, x) <= exports.uses {
      assert x in Elems(toprocess);
    }
  }

  /** main.go:50-111: load the dependency, then run the worklist on its files. */
  method ProcessPackageNeededExports(exports: PkgUsing, load: Load) returns (err: Option<LoadError>)
    modifies exports`uses
    ensures PackageFromName(load(exports.path)).Failure? ==>
      err == Some(PackageFromName(load(exports.path)).error) && exports.uses == old(exports.uses)
    ensures PackageFromName(load(exports.path)).Success? ==>
      err == None && IsNeededExports(PackageFromName(load(exports.path)).value.syntax, old(exports.uses), exports.uses)
  {
    var pkg := PackageFromName(load(exports.path));
    if pkg.Failure? {
      return Some(pkg.error);
    }
    ExpandUses(exports, pkg.value.syntax);
    return None;
  }
}
