/** POSIX path helpers used when a job file name is recorded. */
module Paths {

  /** The final component of a '/'-separated path: everything after the last
      '/', or the whole path when it has none (POSIX `os.path.basename`).
      A path ending in '/' has an empty final component. */
  function Basename(path: string): (base: string)
    ensures '/' !in base
    ensures |base| <= |path| && base == path[|path| - |base|..]
    ensures |base| < |path| ==> path[|path| - |base| - 1] == '/'
    decreases |path|
  {
    if path == [] || path[|path| - 1] == '/' then []
    else
      var init := path[..|path| - 1];
      var rest := Basename(init);
      assert path == init + [path[|path| - 1]];
      rest + [path[|path| - 1]]
  }

  /** The three properties in Basename's contract pin the result down:
      any '/'-free suffix that starts the path or follows a '/' is it. */
  lemma BasenameUnique(path: string, b: string)
    requires '/' !in b
    requires |b| <= |path| && b == path[|path| - |b|..]
    requires |b| < |path| ==> path[|path| - |b| - 1] == '/'
    ensures b == Basename(path)
  {
  }

  /** Taking the base name twice changes nothing. */
  lemma BasenameIdempotent(path: string)
    ensures Basename(Basename(path)) == Basename(path)
  {
  }
}
