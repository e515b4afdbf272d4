/**
 * Lookups relative to the Qt installation being patched: the paths that
 * QDir(qtDir) resolves, and what QDir::exists, QDir::cd and
 * QDir::entryList report there.
 */
module QtDir {
  import opened Paths
  import opened Files
  import opened Settings
  import opened Text

  /** QDir(qtDir).absoluteFilePath(rel). */
  function QtPath(st: Settings, env: Env, rel: string): string
  {
    AbsFilePath(env, st.qtDir, rel)
  }

  /** QDir(qtDir).exists(rel): a file or a directory of that name is there. */
  predicate QtExists(st: Settings, env: Env, fs: FS, rel: string)
  {
    QtPath(st, env, rel) in fs || QtPath(st, env, rel) in env.dirs
  }

  /** QDir(qtDir).cd(rel) succeeds. */
  predicate QtHasDir(st: Settings, env: Env, rel: string)
  {
    QtPath(st, env, rel) in env.dirs
  }

  /** QDir::entryList of a directory under qtDir with the given name filters. */
  function Listing(st: Settings, env: Env, rel: string, filters: seq<string>): seq<string>
  {
    Entries(env, QtPath(st, env, rel), filters)
  }

  /** The candidates, in order, that exist under qtDir. */
  function Existing(st: Settings, env: Env, fs: FS, cands: seq<string>): (r: seq<string>)
    ensures |r| <= |cands|
    ensures forall c :: c in r <==> c in cands && QtExists(st, env, fs, c)
  {
    if |cands| == 0 then []
    else
      var rest := Existing(st, env, fs, cands[1..]);
      if QtExists(st, env, fs, cands[0]) then [cands[0]] + rest else rest
  }

  /**
   * The names, in order, that pass keep, each with prefix in front: what a
   * discovery loop over a directory listing collects.
   */
  function Select(names: seq<string>, keep: string -> bool, prefix: string): (r: seq<string>)
    ensures |r| <= |names|
    ensures forall x :: x in r ==> StartsWith(x, prefix) && x[|prefix|..] in names && keep(x[|prefix|..])
    ensures forall n :: n in names && keep(n) ==> prefix + n in r
  {
    if |names| == 0 then []
    else
      var init := names[..|names| - 1];
      var n := names[|names| - 1];
      var rest := Select(init, keep, prefix);
      assert (prefix + n)[|prefix|..] == n;
      assert forall m :: m in names ==> m in init || m == n;
      if keep(n) then rest + [prefix + n] else rest
  }

  /** A discovery loop that looks at one more name adds that name, with the prefix, exactly when it passes. */
  lemma SelectStep(names: seq<string>, keep: string -> bool, prefix: string, i: int)
    requires 0 <= i < |names|
    ensures Select(names[..i + 1], keep, prefix)
      == if keep(names[i]) then Select(names[..i], keep, prefix) + [prefix + names[i]] else Select(names[..i], keep, prefix)
  {
    assert names[..i + 1][..i] == names[..i];
  }

  /**
   * What step 1 establishes before any patcher runs: the current directory
   * is absolute, and the new location is an absolute path as
   * QDir::absolutePath() returns one (internal separators, cleaned) and
   * free of whitespace (step 1 ends the process otherwise).
   */
  predicate Prepared(st: Settings, env: Env)
  {
    ValidEnv(env) && IsAbsolute(st.newDir) && FromNative(env, st.newDir) == st.newDir
      && IsClean(env, st.newDir) && NoSpace(st.newDir)
  }

  /** The new location is prepared exactly when it is its own absolute path and has no whitespace. */
  lemma PreparedIsAbsPath(st: Settings, env: Env)
    requires ValidEnv(env)
    ensures Prepared(st, env) <==> AbsPath(env, st.newDir) == st.newDir && NoSpace(st.newDir)
  {
    var a := AbsPath(env, st.newDir);
    assert FromNative(env, a) == a;
    if IsAbsolute(st.newDir) && FromNative(env, st.newDir) == st.newDir && IsClean(env, st.newDir) {
      CleanFixed(env, st.newDir);
    }
  }
}
