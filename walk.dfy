/**
 * What the two `ast.Inspect` callbacks of main.go collect from a tree.
 *
 * Both callbacks return true at every node, so the walk reaches every node;
 * `Collect` is the union of what the callback takes from each node it
 * visits, and `CollectIsOccurrences` ties that recursion to the plain
 * statement "some node occurring in the tree yields the name".
 */
module Walk {
  import opened Syntax

  /** The callees that the body walk never records: construction, length, conversion. */
  const Builtins: set<string> := {"make", "len", "string"}

  /**
   * The two callbacks: `References` is the closure handed to `ast.Inspect`
   * for a used function's body; `SelectorsOn(b)` is `inspect` as it acts on
   * the usage entry bound to the import name `b`.
   */
  datatype Visitor = References | SelectorsOn(binding: string)

  /** What one callback takes from one node, without looking at its children. */
  function Visit(v: Visitor, n: Node): set<string>
  {
    match v
    case References =>
      (match n
       case Index(Ident(x), _) => {x}
       case Call(Ident(f), _) => if f in Builtins then {} else {f}
       case _ => {})
    case SelectorsOn(b) =>
      (match n
       case Selector(Ident(a), sel) => if a == b then {sel} else {}
       case _ => {})
  }

  /**
   * The body walk takes the base of an index expression and the callee of a
   * call when each is a plain identifier, the callee only when it is not a
   * builtin; `inspect` takes the member of a selector on the bound name.
   * Nothing else yields a name, and no node yields more than one.
   */
  lemma VisitYields(v: Visitor, n: Node)
    ensures |Visit(v, n)| <= 1
    ensures v.References? ==> forall x :: x in Visit(v, n) <==>
      (n.Index? && n.x == Ident(x)) || (n.Call? && n.fun == Ident(x) && x !in Builtins)
    ensures v.SelectorsOn? ==> forall x :: x in Visit(v, n) <==> n == Selector(Ident(v.binding), x)
  {
  }

  /** Everything the callback `v` takes from `n` and from every node below it. */
  function Collect(v: Visitor, n: Node): set<string>
  {
    Visit(v, n) +
    match n
    case Ident(_) => {}
    case Selector(x, _) => Collect(v, x)
    case Index(x, i) => Collect(v, x) + Collect(v, i)
    case Call(f, args) => Collect(v, f) + CollectAll(v, args)
    case Other(cs) => CollectAll(v, cs)
  }

  /** `Collect` over a list of trees; the last element is peeled off so that a loop over a prefix extends by one call. */
  function CollectAll(v: Visitor, ns: seq<Node>): set<string>
  {
    if ns == [] then {} else CollectAll(v, ns[..|ns| - 1]) + Collect(v, ns[|ns| - 1])
  }

  /** `m` is `n` or a node somewhere below it. */
  predicate Occurs(m: Node, n: Node)
  {
    m == n ||
    match n
    case Ident(_) => false
    case Selector(x, _) => Occurs(m, x)
    case Index(x, i) => Occurs(m, x) || Occurs(m, i)
    case Call(f, args) => Occurs(m, f) || exists k :: 0 <= k < |args| && Occurs(m, args[k])
    case Other(cs) => exists k :: 0 <= k < |cs| && Occurs(m, cs[k])
  }

  /** `m` occurs in one of the trees of `ns`. */
  predicate OccursIn(m: Node, ns: seq<Node>)
  {
    exists k :: 0 <= k < |ns| && Occurs(m, ns[k])
  }

  lemma {:induction false} CollectAllIsOccurrences(v: Visitor, ns: seq<Node>, x: string)
    ensures x in CollectAll(v, ns) <==> exists m :: OccursIn(m, ns) && x in Visit(v, m)
    decreases ns, 1
  {
    if ns != [] {
      var init, last := ns[..|ns| - 1], ns[|ns| - 1];
      CollectAllIsOccurrences(v, init, x);
      CollectIsOccurrences(v, last, x);
      if x in CollectAll(v, ns) {
        if x in CollectAll(v, init) {
          var m :| OccursIn(m, init) && x in Visit(v, m);
          var k :| 0 <= k < |init| && Occurs(m, init[k]);
          assert ns[k] == init[k];
        } else {
          var m :| Occurs(m, last) && x in Visit(v, m);
          assert Occurs(m, ns[|ns| - 1]);
        }
      }
      if exists m :: OccursIn(m, ns) && x in Visit(v, m) {
        var m :| OccursIn(m, ns) && x in Visit(v, m);
        var k :| 0 <= k < |ns| && Occurs(m, ns[k]);
        if k < |ns| - 1 {
          assert init[k] == ns[k];
          assert OccursIn(m, init);
        }
      }
    }
  }

  /** A name is collected from a tree exactly when some node of the tree yields it. */
  lemma {:induction false} CollectIsOccurrences(v: Visitor, n: Node, x: string)
    ensures x in Collect(v, n) <==> exists m :: Occurs(m, n) && x in Visit(v, m)
    decreases n, 0
  {
    match n
    case Ident(_) =>
    case Selector(y, _) =>
      CollectIsOccurrences(v, y, x);
    case Index(y, i) =>
      CollectIsOccurrences(v, y, x);
      CollectIsOccurrences(v, i, x);
    case Call(f, args) =>
      CollectIsOccurrences(v, f, x);
      CollectAllIsOccurrences(v, args, x);
      if exists m :: Occurs(m, n) && x in Visit(v, m) {
        var m :| Occurs(m, n) && x in Visit(v, m);
        if m != n && !Occurs(m, f) {
          assert OccursIn(m, args);
        }
      }
    case Other(cs) =>
      CollectAllIsOccurrences(v, cs, x);
      if exists m :: Occurs(m, n) && x in Visit(v, m) {
        var m :| Occurs(m, n) && x in Visit(v, m);
        if m != n {
          assert OccursIn(m, cs);
        }
      }
  }

  /** A call of a deny-listed builtin contributes nothing itself: only its arguments can. */
  lemma BuiltinCallAddsNothing(f: string, args: seq<Node>)
    requires f in Builtins
    ensures Collect(References, Call(Ident(f), args)) == CollectAll(References, args)
  {
  }

  /** A tree with no index expression and only builtin calls yields no name at all. */
  predicate OnlyBuiltinCalls(n: Node)
  {
    match n
    case Ident(_) => true
    case Selector(x, _) => OnlyBuiltinCalls(x)
    case Index(_, _) => false
    case Call(f, args) =>
      f.Ident? && f.name in Builtins && forall k :: 0 <= k < |args| ==> OnlyBuiltinCalls(args[k])
    case Other(cs) => forall k :: 0 <= k < |cs| ==> OnlyBuiltinCalls(cs[k])
  }

  lemma {:induction false} OnlyBuiltinCallsAllAddNothing(ns: seq<Node>)
    requires forall k :: 0 <= k < |ns| ==> OnlyBuiltinCalls(ns[k])
    ensures CollectAll(References, ns) == {}
    decreases ns, 1
  {
    if ns != [] {
      OnlyBuiltinCallsAllAddNothing(ns[..|ns| - 1]);
      OnlyBuiltinCallsAddNothing(ns[|ns| - 1]);
    }
  }

  /** Deny-listed callees are never recorded: a body made only of builtin calls adds no name. */
  lemma {:induction false} OnlyBuiltinCallsAddNothing(n: Node)
    requires OnlyBuiltinCalls(n)
    ensures Collect(References, n) == {}
    decreases n, 0
  {
    match n
    case Ident(_) =>
    case Selector(x, _) => OnlyBuiltinCallsAddNothing(x);
    case Index(_, _) =>
    case Call(f, args) =>
      OnlyBuiltinCallsAddNothing(f);
      OnlyBuiltinCallsAllAddNothing(args);
    case Other(cs) => OnlyBuiltinCallsAllAddNothing(cs);
  }
}
