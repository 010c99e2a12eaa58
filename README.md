# goless: a Dafny model of the import tree shaker

goless trims the dependencies of a Go program down to what the program uses.
It loads the entry package. Then it binds each import of each entry file to its
local name and creates a usage record `PkgUsing` for the tracked binding
(`stdhex`). It walks the entry files and records every `binding.Member`
selector. For each tracked dependency it then runs a worklist: a used name
that is a function has its body walked, and every index base and every
non-builtin callee found there becomes used too. Each dependency file is
then trimmed to the used declarations. Finally the entry's imports are
redirected into the `goless` output directory.

The model follows `main.go` module by module:

- `Syntax`: a reduced `go/ast`. It has identifiers, selectors, index expressions, calls and "other" nodes, plus imports, declarations, files and packages.
- `Loader`: `PackageFromName` over the outcome of `packages.Load`, which is a parameter here.
- `Paths`: `strings.Split` and `strings.Join`, and the last path segment.
- `Imports`: unquoting a path literal, the binding name of an import, and which import is tracked.
- `Walk`: what the two `ast.Inspect` callbacks take from a tree.
- `Usage`: the `PkgUsing` record, a class whose `uses` set is updated in place.
- `Discovery`: `inspect`, and the loop of `main` that registers the tracked binding and walks each entry file. The global `pkgUsages` is passed explicitly.
- `Reachability`: `processPackageNeededExports`. It holds the worklist (a method with a loop that updates `exports.uses` in place) and its specification: the least closed superset of the initial uses.
- `Filter`: the keep predicate of `ast.FilterFile` and `processPackageRewrite`.
- `Rewrite`: the rewrite of the entry's import paths.
- `Shaker`: the first phase of `main` after discovery, which hands the discovered record to the worklist.
- `Scenarios`: the test entry `test/hexencoder/main.go` and two small dependency packages, with their outcomes.

Three behaviours of the code are worth knowing, because a reader might expect
otherwise; the model follows the code:

- A later import of the tracked binding, in another entry file, replaces the usage record. The uses gathered from earlier files are dropped (main.go:159-160). `Discovery.ReimportResetsUses` states this.
- Every import of every entry file is rewritten into `goless/`, tracked or not (main.go:192-195).
- Any identifier indexed in a used function's body is marked used. This includes local variables and parameters (main.go:77-85).

## Model

| member | source | states |
|---|---|---|
| Loader.PackageFromName | main.go:38-48 | succeeds exactly when the load succeeded with one package, and yields that package; a loader error is passed on, and any other package count is reported with that count |
| Paths.Split | main.go:155 | `strings.Split` gives at least one piece, and no piece contains the separator |
| Paths.JoinSplit | main.go:155 | joining the pieces of a split with the separator gives back the string |
| Paths.SplitJoin | main.go:155 | splitting a join of separator-free pieces gives back the pieces |
| Paths.SplitNoSep | main.go:155 | a string without the separator splits to itself alone |
| Paths.LastSegmentIsSuffix | main.go:155-156 | the last piece has no '/', is a suffix of the path, and is either the whole path or preceded by '/' |
| Imports.Unquote | main.go:154 | the literal is its first character, the path, then its last character |
| Imports.UnquoteWrapped | main.go:154 | unquoting a path wrapped in two characters gives the path |
| Imports.BindingName | main.go:150-157 | an explicit name is the binding; otherwise the binding is the last '/'-free suffix of the unquoted path |
| Imports.SingleSegmentBinding | main.go:154-156 | an unnamed import whose path has no '/' is bound to its whole path |
| Usage.PkgUsing.constructor | main.go:31-34 | a new record holds the given path and no uses |
| Syntax.FileNodes | main.go:163 | every top-level node of every declaration is visited when the file is walked |
| Walk.VisitYields | main.go:17-29 | at most one name per node; the body callback yields exactly an identifier index base or a non-builtin identifier callee; `inspect` yields exactly the member of a selector on the binding |
| Walk.CollectIsOccurrences | main.go:72-102 | a name is collected from a tree exactly when some node occurring in it yields the name, because the callback always returns true |
| Walk.CollectAllIsOccurrences | main.go:71-103 | the same for a list of trees |
| Walk.BuiltinCallAddsNothing | main.go:89-91 | a call of make, len or string contributes only what its arguments contribute |
| Walk.OnlyBuiltinCallsAddNothing | main.go:86-99 | a tree with no index expression and only builtin calls adds no name |
| Walk.OnlyBuiltinCallsAllAddNothing | main.go:86-99 | the same for a list of trees |
| Discovery.Inspect | main.go:17-29 | each binding's uses grow by exactly the member of a selector on that binding at this node |
| Discovery.InspectTree | main.go:163 | each binding's uses grow by exactly the selectors on it anywhere in the tree |
| Discovery.InspectTrees | main.go:163 | the same for a list of trees, walked in order |
| Discovery.RegisterImports | main.go:149-162 | only the tracked binding is ever bound; each tracked import installs a new record with the unquoted path and no uses; other records are kept |
| Discovery.DiscoverUsages | main.go:145-164 | the records' values after all entry files equal `Discover`, registering then walking file by file; only the tracked binding has a record, and every record is new, so the caller may hand it to the worklist |
| Discovery.RegisterUntracked | main.go:159 | imports none of which is tracked leave the entries unchanged |
| Discovery.RegisterTracked | main.go:159-160 | a tracked import changes only the tracked binding's entry, and that entry has no uses |
| Discovery.RegisterEffect | main.go:148-162 | both of the above, by whether a tracked import is present |
| Discovery.DiscoverKeys | main.go:145-164 | an entry exists exactly for the tracked binding, and exactly when some entry file imports it |
| Discovery.ReimportResetsUses | main.go:159-160 | after a file that imports the tracked binding again, its uses are only that file's selectors |
| Discovery.NoReimportKeepsUses | main.go:148-163 | a file without a tracked import keeps every entry's path and adds its selectors to the uses |
| Discovery.DiscoveredUsesAreSelected | main.go:17-29 | every recorded use is the member of a selector on that binding in some entry file |
| Reachability.FirstFuncInDecls | main.go:65-69 | a declaration found in one file is a function with that name |
| Reachability.FirstFunc | main.go:64-69 | a declaration found in the package is a function with that name |
| Reachability.FirstFuncInDeclsIsFirst | main.go:65-69 | the one found is the earliest such declaration; none is found exactly when the file has none |
| Reachability.FirstFuncIsFirst | main.go:64-69 | the earliest file that has one supplies it; none is found exactly when no file has one |
| Reachability.DeclsRefs | main.go:72-102 | it contains the references of every function body of the file |
| Reachability.AllRefs | main.go:72-102 | it contains the references of every function body of the package |
| Reachability.BodyRefsInAllRefs | main.go:72-102 | what one queued name adds lies within the package's body references |
| Reachability.AllRefsClosed | main.go:61-109 | the initial uses plus every body reference form a closed set |
| Reachability.StepStaysLeast | main.go:63-105 | processing a used name keeps the uses inside every closed superset of the initial uses |
| Reachability.NeededExportsBounded | main.go:61-109 | the final uses are initial names or names referenced in some function body |
| Reachability.NeededExportsUnique | main.go:61-109 | the outcome depends only on the package and the initial uses, not on the queue order |
| Reachability.NeededExportsStable | main.go:61-109 | from a closed initial set the worklist adds nothing |
| Reachability.ClosedIsOwnOutcome | main.go:61-109 | a closed initial set is its own outcome |
| Reachability.AppendInStep | main.go:80-84 | queueing a name not yet used, and marking it, keeps queue and set in step |
| Reachability.QueueOf | main.go:56-59 | the queue holds every initial use exactly once |
| Reachability.LookupFunc | main.go:64-69 | the scan returns the first function declaration with the name, files then declarations in order |
| Reachability.NoteReference | main.go:77-99 | uses grow by exactly what the node yields (deny-listed callees never); queue and set stay in step; the queue only grows at its end |
| Reachability.InspectRefs | main.go:72-102 | uses grow by exactly the tree's references; queue and set stay in step; the queue only grows at its end |
| Reachability.InspectRefsAll | main.go:71-103 | the same for the statements of a body, in order |
| Reachability.ProcessQueued | main.go:63-108 | only the first function with the queued name is walked, so uses grow by its body references and by nothing when there is none; the worklist invariant advances by one entry |
| Reachability.ExpandUses | main.go:56-109 | the loop ends, and the final uses are the least closed superset of the initial uses |
| Reachability.ProcessPackageNeededExports | main.go:50-111 | a load error is returned and leaves the uses unchanged; otherwise there is no error and the uses become the least closed superset |
| Filter.FilterDecls | main.go:125-128 | filtering never adds declarations |
| Filter.FilterDeclsMembers | main.go:125-128 | a declaration survives exactly when it was present and its name is used |
| Filter.FilterDeclsAppend | main.go:125-128 | filtering distributes over concatenation, so relative order is kept |
| Filter.FilterDeclsKeepsAllUsed | main.go:125-128 | declarations whose names are all used are kept unchanged |
| Filter.FilterDeclsIdempotent | main.go:125-128 | filtering twice with the same uses is filtering once |
| Filter.ProcessPackageRewrite | main.go:113-135 | a load error is returned; otherwise one trimmed file per package file, each the filter of its source file: no imports, and the declarations whose names are used, in their original order (`FilterDecls`) |
| Rewrite.NonEmpty | main.go:194 | `filepath.Join` ignores empty elements: the result holds exactly the non-empty elements, and is the input itself when none is empty |
| Rewrite.JoinPathWithOutputDir | main.go:194 | joining the package path, `goless` and a tail puts '/' between them and skips an empty package path |
| Rewrite.RewritePathInOutputDir | main.go:194 | the new literal still opens with a quote and keeps the old closing character; unquoted, it is the old path under `<pkgPath>/goless/` |
| Rewrite.RewriteEntryImports | main.go:192-195 | every import of every file is rewritten, and declarations and import counts are unchanged |
| Shaker.DiscoverAndExpand | main.go:172-177 | the records are those discovery finds, with their paths; the tracked record, if any, becomes the least closed superset of its discovered uses in its dependency, or a load error is returned and the uses stay as discovered |
| Scenarios.HexEncoderBindings | test/hexencoder/main.go:3-7 | the imports bind stdhex, fmt and os, and the aliased one has path encoding/hex |
| Scenarios.HexEncoderRegister | test/hexencoder/main.go:3-7 | registering the test imports creates only stdhex ↦ ("encoding/hex", {}) |
| Scenarios.HexEncoderSelectors | test/hexencoder/main.go:9-12 | the only selector on stdhex in the body is EncodeToString |
| Scenarios.SelectionsOnFreshEntry | main.go:160-163 | walking nodes over one fresh entry gives it exactly the selections on its binding |
| Scenarios.HexEncoderDiscovery | test/hexencoder/main.go:1-12 | discovery on the test entry gives stdhex ↦ ("encoding/hex", {EncodeToString}) |
| Scenarios.PackageABodies | main.go:64-102 | Foo references Bar and table; the builtin len in Bar adds nothing; table is not a function |
| Scenarios.PackageANeeded | main.go:61-109 | from {Foo} the outcome is {Foo, Bar, table} |
| Scenarios.PackageATrimmed | main.go:125-128 | trimming with those names keeps Foo, Bar and table and drops Baz |
| Scenarios.PackageAOutcome | main.go:50-135 | any outcome from {Foo} is {Foo, Bar, table}, and trimming keeps exactly those declarations |
| Scenarios.PackageBOutcome | main.go:89-91 | a body with only a builtin call leaves the uses at {Foo} |

## Left out

- File system and process plumbing is not modelled: `os.Mkdir`, `os.MkdirAll`, `os.Chdir`, `os.Getwd`, `os.Create`, `printer.Fprint`, closing files, and `log.Fatal` exits (main.go:166-189, 196-202).
- Filter.ProcessPackageRewrite: does not model the `os.Create` failure (main.go:120-124), the output file names taken from `CompiledGoFiles`, or the clearing of comments (main.go:129).
- `main` is not composed into one method. The pieces are modelled separately: loading the entry, discovery followed by the worklist (`Shaker.DiscoverAndExpand`, where the loop over `pkgUsages` becomes one step because only `stdhex` can have a record), each dependency's rewrite, and the entry rewrite. The second loop over `pkgUsages` (main.go:178-189) is left out with the directory changes it makes. Go's random map iteration order is irrelevant with a single record.
- `packages.Load` is foreign code. Its outcome is a parameter (`Loader.Load`), a total function, so two loads of the same pattern see the same package.
- Filter.ProcessPackageRewrite: `ast.FilterFile` is reduced to declarations that each declare one name, kept exactly when that name is used. The real filter also keeps a type declaration whose own name is unused when its type mentions a used name (a struct with a used field name, or `type T []Bar` with `Bar` used). It also filters the specs of a `GenDecl` one by one and drops unused struct fields. None of this is modelled. Import declarations are always removed, as the real filter does.
- Rewrite.JoinPathWithOutputDir: `filepath.Clean` (removing `.`, `..` and repeated '/') is not modelled. The result is exact only for clean package paths.
- Reachability.QueueOf: does not pin the order of the initial queue. Go takes it from map iteration, which is random. The outcome does not depend on it (`Reachability.NeededExportsUnique`).
- A function declaration without a body (an assembly stub) makes main.go:71 dereference a nil body. The model treats an absent body as an empty one.
- Discovery.Inspect: requires distinct bindings to hold distinct records, which `main` guarantees.
- Only the node kinds the callbacks react to are distinguished. Every other node is `Other` with its children, and the `Sel` identifier of a selector is not walked as a child node.
- The walk of an entry file covers its declarations only. The package clause and the import specs hold no selector, so they add nothing.
