/**
 * `PackageFromName` (main.go:38-48). `packages.Load` itself is a foreign
 * loader; its outcome for a pattern is an input here, given by a total
 * function, so two loads of the same pattern see the same package.
 */
module Loader {
  import opened Wrappers
  import opened Syntax

  /** What `packages.Load` returned: an error, or the list of packages matched. */
  datatype LoadOutcome = LoadFailed(message: string) | Loaded(pkgs: seq<Package>)

  /** The loader, as seen by the tree shaker: deterministic in its pattern. */
  type Load = string -> LoadOutcome

  datatype LoadError =
    | LoaderError(message: string)   // the error of packages.Load, passed on
    | PackageCount(count: nat)       // "Unexpectedly got %d packages"

  /** Exactly one package must come back; anything else is an error. */
  function PackageFromName(outcome: LoadOutcome): (r: Result<Package, LoadError>)
    ensures r.Success? <==> outcome.Loaded? && |outcome.pkgs| == 1
    ensures r.Success? ==> r.value == outcome.pkgs[0]
    ensures outcome.LoadFailed? ==> r == Failure(LoaderError(outcome.message))
    ensures outcome.Loaded? && |outcome.pkgs| != 1 ==> r == Failure(PackageCount(|outcome.pkgs|))
  {
    match outcome
    case LoadFailed(msg) => Failure(LoaderError(msg))
    case Loaded(pkgs) =>
      if |pkgs| != 1 then Failure(PackageCount(|pkgs|)) else Success(pkgs[0])
  }
}
