/** The per-package usage record `PkgUsing` (main.go:31-34). */
module Usage {

  /**
   * One tracked dependency: its import path and the names found to be used
   * in it. The Go record holds `Uses` as a `map[string]bool` whose values are
   * all true; it is a set here. `Path` is never reassigned after creation.
   */
  class PkgUsing {
    const path: string
    var uses: set<string>

    constructor (path: string)
      ensures this.path == path && uses == {}
    {
      this.path := path;
      uses := {};
    }
  }

  /** The value held by a `PkgUsing` at one moment. */
  datatype Entry = Entry(path: string, uses: set<string>)
}
