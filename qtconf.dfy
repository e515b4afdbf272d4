/**
 * The qt.conf patcher (QtConfPatcher). A bin/qt.conf left in the
 * installation would override the paths compiled into qmake, so the
 * patcher deletes it.
 */
module QtConf {
  import opened Paths
  import opened Files
  import opened Settings
  import opened QtDir

  const ConfRel := "bin/qt.conf"

  /** QtConfPatcher::findFileToPatch: bin/qt.conf when it is there. */
  function FindFileToPatch(st: Settings, env: Env, fs: FS): (r: seq<string>)
    ensures r != [] <==> QtExists(st, env, fs, ConfRel)
    ensures forall x :: x in r ==> x == ConfRel
    ensures |r| <= 1
  {
    if QtExists(st, env, fs, ConfRel) then [ConfRel] else []
  }

  /**
   * QtConfPatcher::patchFile: an existing file is removed and the result is
   * true; a missing one gives false and nothing changes. No other file
   * changes either way.
   */
  function PatchFileSpec(st: Settings, env: Env, fs: FS, file: string): (r: (bool, FS))
    ensures r.0 <==> QtExists(st, env, fs, file)
    ensures r.0 ==> QtPath(st, env, file) !in r.1
    ensures !r.0 ==> r.1 == fs
    ensures forall k :: k != QtPath(st, env, file) ==> (k in r.1 <==> k in fs)
    ensures forall k :: k in r.1 ==> r.1[k] == fs[k]
  {
    if QtExists(st, env, fs, file) then (true, Remove(fs, QtPath(st, env, file))) else (false, fs)
  }

  method PatchFile(st: Settings, env: Env, disk: Disk, file: string) returns (ok: bool)
    modifies disk
    ensures (ok, disk.files) == PatchFileSpec(st, env, old(disk.files), file)
  {
    ok := false;
    if QtExists(st, env, disk.files, file) {
      disk.files := Remove(disk.files, QtPath(st, env, file));
      ok := true;
    }
  }

  /** Once bin/qt.conf, a file and not a directory, has been removed, discovery finds nothing. */
  lemma PatchedNotFound(st: Settings, env: Env, fs: FS)
    requires QtPath(st, env, ConfRel) !in env.dirs
    ensures FindFileToPatch(st, env, PatchFileSpec(st, env, fs, ConfRel).1) == []
  {
  }

  /** Patching again after a successful patch reports failure and changes nothing. */
  lemma PatchTwice(st: Settings, env: Env, fs: FS)
    requires QtPath(st, env, ConfRel) !in env.dirs
    ensures var fs1 := PatchFileSpec(st, env, fs, ConfRel).1;
      PatchFileSpec(st, env, fs1, ConfRel) == (false, fs1)
  {
    PatchedNotFound(st, env, fs);
  }
}
