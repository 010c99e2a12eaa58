/**
 * The first phase of `main` after discovery (main.go:172-177): every usage
 * record found in the entry package is handed to the worklist of its
 * dependency. Only `stdhex` ever has a record, so the loop over `pkgUsages`
 * runs at most once.
 */
module Shaker {
  import opened Wrappers
  import opened Syntax
  import opened Loader
  import opened Imports
  import opened Usage
  import opened Discovery
  import opened Reachability

  /**
   * Discover the usage records of the entry files, then expand the record of
   * the tracked binding, if any, to the names its dependency needs. A load
   * error stops the run (`log.Fatalf` in main.go:175) and is returned.
   */
  method DiscoverAndExpand(entry: seq<File>, load: Load) returns (pkgUsages: map<string, PkgUsing>, err: Option<LoadError>)
    ensures pkgUsages.Keys == Discover(entry).Keys
    ensures forall b | b in pkgUsages :: pkgUsages[b].path == Discover(entry)[b].path
    ensures TrackedBinding !in pkgUsages ==> err == None
    ensures TrackedBinding in pkgUsages ==>
      var discovered := Discover(entry)[TrackedBinding];
      var pkg := PackageFromName(load(discovered.path));
      && (pkg.Failure? ==> err == Some(pkg.error) && pkgUsages[TrackedBinding].uses == discovered.uses)
      && (pkg.Success? ==> err == None && IsNeededExports(pkg.value.syntax, discovered.uses, pkgUsages[TrackedBinding].uses))
  {
    pkgUsages := DiscoverUsages(entry);
    assert Snapshot(pkgUsages).Keys == pkgUsages.Keys;
    err := None;
    if TrackedBinding in pkgUsages {
      var exports := pkgUsages[TrackedBinding];
      assert Snapshot(pkgUsages)[TrackedBinding] == Entry(exports.path, exports.uses);
      err := ProcessPackageNeededExports(exports, load);
    }
  }
}
