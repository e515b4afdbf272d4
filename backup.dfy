/**
 * The backup store (Backup). Before a file is patched it is copied from
 * the Qt directory into a backup directory under the same relative path,
 * and the relative path is recorded; restoreAll copies every recorded file
 * back; destroy removes the backup directory. Without a configured backup
 * directory a temporary one is used, and only that one is removed when the
 * store goes away.
 */
module Backup {
  import opened Wrappers
  import opened Text
  import opened Paths
  import opened Files
  import opened Settings

  /**
   * The backup directory a new store uses: the configured one, else the
   * temporary directory when one could be made, else QDir(), the current
   * directory (written here as the empty path).
   */
  function BackupDirOf(st: Settings, temp: Option<string>): (d: string)
    ensures st.backupDir != "" ==> d == st.backupDir
    ensures st.backupDir == "" && temp.None? ==> NamesCwd(d)
  {
    if st.backupDir != "" then st.backupDir else if temp.Some? then temp.value else ""
  }

  /** Whether the store works in a temporary directory of its own. */
  predicate TempBackupOf(st: Settings, temp: Option<string>)
  {
    st.backupDir == "" && temp.Some?
  }

  /** Whether backupOneFile accepts a path: its cleaned form has no "..". */
  predicate Accepted(env: Env, path: string)
  {
    !Contains(CleanPath(env, path), "..")
  }

  /** Where a recorded file lives, under the Qt directory or under the backup directory. */
  function Under(env: Env, dir: string, f: string): string
  {
    AbsFilePath(env, dir, f)
  }

  /**
   * backupOneFile: a path whose cleaned form has "..", is refused and
   * nothing happens; otherwise the file is copied (a copy that never
   * overwrites) and its cleaned path is recorded. No existing file changes.
   */
  function BackupSpec(env: Env, qd: string, bd: string, fs: FS, rec: seq<string>, path: string): (r: (bool, FS, seq<string>))
    ensures r.0 <==> Accepted(env, path)
    ensures r.0 ==> r.2 == rec + [CleanPath(env, path)]
    ensures !r.0 ==> r.1 == fs && r.2 == rec
    ensures forall f :: f in r.2 ==> f in rec || !Contains(f, "..")
    ensures forall k :: k in fs ==> k in r.1 && r.1[k] == fs[k]
  {
    if !Accepted(env, path) then (false, fs, rec)
    else
      var p := CleanPath(env, path);
      (true, Copy(fs, Under(env, qd, p), Under(env, bd, p)).1, rec + [p])
  }

  /** One copy back: from the backup (src) to the file under the Qt directory (dst). */
  datatype Move = Move(src: string, dst: string)

  /** The copies restoreAll makes, in recording order. */
  function Moves(env: Env, qd: string, bd: string, files: seq<string>): (ms: seq<Move>)
    ensures |ms| == |files|
    ensures forall i :: 0 <= i < |files| ==> ms[i] == Move(Under(env, bd, files[i]), Under(env, qd, files[i]))
  {
    seq(|files|, i requires 0 <= i < |files| => Move(Under(env, bd, files[i]), Under(env, qd, files[i])))
  }

  /**
   * One copy back. As written this is QFile::copy, which leaves an existing
   * destination alone; the corrected restore (overwrite) replaces the
   * destination by the backup when the backup can be read.
   */
  function CopyBackOne(fs: FS, m: Move, overwrite: bool): FS
  {
    if !overwrite then Copy(fs, m.src, m.dst).1
    else if Readable(fs, m.src) then fs[m.dst := fs[m.src]]
    else fs
  }

  /** The copies made one after another. */
  function Replay(fs: FS, ms: seq<Move>, overwrite: bool): (r: FS)
    ensures forall k :: k in fs ==> k in r
  {
    if |ms| == 0 then fs
    else CopyBackOne(Replay(fs, ms[..|ms| - 1], overwrite), ms[|ms| - 1], overwrite)
  }

  /** restoreAll's loop: the recorded files copied back in recording order. */
  function Restored(env: Env, qd: string, bd: string, fs: FS, files: seq<string>, overwrite: bool): FS
  {
    Replay(fs, Moves(env, qd, bd, files), overwrite)
  }

  /** Making one more copy. */
  lemma ReplayStep(fs: FS, ms: seq<Move>, overwrite: bool, i: int)
    requires 0 <= i < |ms|
    ensures Replay(fs, ms[..i + 1], overwrite) == CopyBackOne(Replay(fs, ms[..i], overwrite), ms[i], overwrite)
  {
    assert ms[..i + 1][..i] == ms[..i];
  }

  /**
   * As written, the copies change nothing while their destinations are
   * still there: every copy meets an existing destination.
   */
  lemma {:induction false} ReplayAsWrittenKeepsPresent(fs: FS, ms: seq<Move>)
    requires forall k :: 0 <= k < |ms| ==> ms[k].dst in fs
    ensures Replay(fs, ms, false) == fs
  {
    if |ms| > 0 {
      ReplayAsWrittenKeepsPresent(fs, ms[..|ms| - 1]);
      CopyNeverOverwrites(fs, ms[|ms| - 1].src, ms[|ms| - 1].dst);
    }
  }

  /**
   * As written, restoreAll changes no file that exists when it starts: a
   * copy only ever adds a file that is missing.
   */
  lemma {:induction false} ReplayAsWrittenKeeps(fs: FS, ms: seq<Move>, p: string)
    requires p in fs
    ensures p in Replay(fs, ms, false) && Replay(fs, ms, false)[p] == fs[p]
  {
    if |ms| > 0 {
      var m := ms[|ms| - 1];
      ReplayAsWrittenKeeps(fs, ms[..|ms| - 1], p);
      CopyAddsOnlyDst(Replay(fs, ms[..|ms| - 1], false), m.src, m.dst);
    }
  }

  /** No copy writes where a backup is read. */
  predicate Separate(ms: seq<Move>)
  {
    forall i, j :: 0 <= i < |ms| && 0 <= j < |ms| ==> ms[i].dst != ms[j].src
  }

  /** No two copies write the same file. */
  predicate Distinct(ms: seq<Move>)
  {
    forall i, j :: 0 <= i < j < |ms| ==> ms[i].dst != ms[j].dst
  }

  /** A file no copy writes is kept. */
  lemma {:induction false} ReplayKeeps(fs: FS, ms: seq<Move>, p: string)
    requires p in fs
    requires forall i :: 0 <= i < |ms| ==> ms[i].dst != p
    ensures p in Replay(fs, ms, true) && Replay(fs, ms, true)[p] == fs[p]
  {
    if |ms| > 0 {
      var init := ms[..|ms| - 1];
      assert forall i :: 0 <= i < |init| ==> init[i] == ms[i];
      ReplayKeeps(fs, init, p);
    }
  }

  /** The corrected restore leaves the backups alone. */
  lemma BackupsKept(fs: FS, ms: seq<Move>)
    requires Separate(ms)
    ensures forall j :: 0 <= j < |ms| && ms[j].src in fs ==>
      ms[j].src in Replay(fs, ms, true) && Replay(fs, ms, true)[ms[j].src] == fs[ms[j].src]
  {
    forall j | 0 <= j < |ms| && ms[j].src in fs
      ensures ms[j].src in Replay(fs, ms, true) && Replay(fs, ms, true)[ms[j].src] == fs[ms[j].src]
    {
      ReplayKeeps(fs, ms, ms[j].src);
    }
  }

  /** The corrected restore puts every readable backup in place of its file under the Qt directory. */
  lemma {:induction false} ReplayRecovers(fs: FS, ms: seq<Move>)
    requires Separate(ms) && Distinct(ms)
    ensures forall j :: 0 <= j < |ms| && Readable(fs, ms[j].src) ==>
      ms[j].dst in Replay(fs, ms, true) && Replay(fs, ms, true)[ms[j].dst] == fs[ms[j].src]
  {
    if |ms| > 0 {
      var n := |ms| - 1;
      var init := ms[..n];
      var m := ms[n];
      assert forall i :: 0 <= i < n ==> init[i] == ms[i];
      ReplayRecovers(fs, init);
      if Readable(fs, m.src) {
        ReplayKeeps(fs, init, m.src);
      }
    }
  }

  /**
   * Backing up a readable file, patching anything but its backup, and
   * restoring with the corrected restore gives the file its content back.
   */
  lemma BackupRestoreRoundTrip(env: Env, qd: string, bd: string, fs0: FS, path: string, fs2: FS)
    requires Accepted(env, path)
    requires var p := CleanPath(env, path);
      Readable(fs0, Under(env, qd, p)) && Under(env, bd, p) !in fs0 && Under(env, qd, p) != Under(env, bd, p)
    requires var p := CleanPath(env, path);
      Under(env, bd, p) in fs2 && fs2[Under(env, bd, p)] == BackupSpec(env, qd, bd, fs0, [], path).1[Under(env, bd, p)]
    ensures var p := CleanPath(env, path);
      Under(env, qd, p) in Restored(env, qd, bd, fs2, BackupSpec(env, qd, bd, fs0, [], path).2, true)
      && Restored(env, qd, bd, fs2, BackupSpec(env, qd, bd, fs0, [], path).2, true)[Under(env, qd, p)] == fs0[Under(env, qd, p)]
  {
    var p := CleanPath(env, path);
    var q, b := Under(env, qd, p), Under(env, bd, p);
    assert Copy(fs0, q, b) == (true, fs0[b := fs0[q]]);
    assert [] + [p] == [p];
    assert BackupSpec(env, qd, bd, fs0, [], path) == (true, fs0[b := fs0[q]], [p]);
    var ms := Moves(env, qd, bd, [p]);
    assert ms == [Move(b, q)];
    assert ms[..0] == [];
    assert Replay(fs2, ms, true) == CopyBackOne(fs2, Move(b, q), true);
  }

  /**
   * As written, a file that was backed up and then patched keeps its
   * patched content through restoreAll.
   */
  lemma PatchedSurvivesRestore(env: Env, qd: string, bd: string, fs0: FS, path: string, fs2: FS)
    requires Accepted(env, path)
    requires Under(env, qd, CleanPath(env, path)) in fs2
    ensures var p := CleanPath(env, path);
      Restored(env, qd, bd, fs2, BackupSpec(env, qd, bd, fs0, [], path).2, false)[Under(env, qd, p)] == fs2[Under(env, qd, p)]
  {
    var p := CleanPath(env, path);
    assert BackupSpec(env, qd, bd, fs0, [], path).2 == [p];
    ReplayAsWrittenKeepsPresent(fs2, Moves(env, qd, bd, [p]));
  }

  /** The backup store: BackupPrivate's fields. */
  class Backup {
    var qtDir: string
    var backupDir: string
    var tempBackup: bool
    var filesBackuped: seq<string>

    /** Every recorded path is a cleaned path without "..". */
    predicate Valid()
      reads this
    {
      forall k :: 0 <= k < |filesBackuped| ==> !Contains(filesBackuped[k], "..")
    }

    /** Backup::Backup; temp is the temporary directory QTemporaryDir made, if it could. */
    constructor (st: Settings, temp: Option<string>)
      ensures qtDir == st.qtDir && backupDir == BackupDirOf(st, temp) && tempBackup == TempBackupOf(st, temp)
      ensures filesBackuped == [] && Valid()
    {
      qtDir := st.qtDir;
      tempBackup := TempBackupOf(st, temp);
      backupDir := BackupDirOf(st, temp);
      filesBackuped := [];
    }

    /** Backup::backupOneFile. */
    method BackupOneFile(env: Env, disk: Disk, path: string) returns (ok: bool)
      requires Valid()
      modifies this, disk
      ensures (ok, disk.files, filesBackuped) == BackupSpec(env, qtDir, backupDir, old(disk.files), old(filesBackuped), path)
      ensures qtDir == old(qtDir) && backupDir == old(backupDir) && tempBackup == old(tempBackup)
      ensures Valid()
    {
      var p := CleanPath(env, path);
      if Contains(p, "..") {
        return false;
      }
      var (_, fs) := Copy(disk.files, Under(env, qtDir, p), Under(env, backupDir, p));
      disk.files := fs;
      filesBackuped := filesBackuped + [p];
      ok := true;
    }

    /** Backup::restoreAll as written, copying back with QFile::copy. */
    method RestoreAllAsWritten(env: Env, disk: Disk) returns (ok: bool)
      requires Valid()
      modifies this, disk
      ensures ok && filesBackuped == [] && Valid()
      ensures disk.files == Restored(env, qtDir, backupDir, old(disk.files), old(filesBackuped), false)
      ensures qtDir == old(qtDir) && backupDir == old(backupDir) && tempBackup == old(tempBackup)
    {
      CopyBack(env, disk, false);
      filesBackuped := [];
      ok := true;
    }

    /** Backup::restoreAll with each backup put in place of the patched file. */
    method RestoreAll(env: Env, disk: Disk) returns (ok: bool)
      requires Valid()
      modifies this, disk
      ensures ok && filesBackuped == [] && Valid()
      ensures disk.files == Restored(env, qtDir, backupDir, old(disk.files), old(filesBackuped), true)
      ensures qtDir == old(qtDir) && backupDir == old(backupDir) && tempBackup == old(tempBackup)
    {
      CopyBack(env, disk, true);
      filesBackuped := [];
      ok := true;
    }

    /** restoreAll's loop over the recorded files. */
    method CopyBack(env: Env, disk: Disk, overwrite: bool)
      modifies disk
      ensures disk.files == Restored(env, qtDir, backupDir, old(disk.files), filesBackuped, overwrite)
    {
      var ms := Moves(env, qtDir, backupDir, filesBackuped);
      var fs0 := disk.files;
      var i := 0;
      while i < |ms|
        invariant 0 <= i <= |ms|
        invariant disk.files == Replay(fs0, ms[..i], overwrite)
      {
        ReplayStep(fs0, ms, overwrite, i);
        disk.files := CopyBackOne(disk.files, ms[i], overwrite);
        i := i + 1;
      }
      assert ms[..i] == ms;
    }

    /** Backup::destroy. */
    method Destroy(env: Env, disk: Disk)
      modifies this, disk
      ensures disk.files == RemoveTree(old(disk.files), AbsPath(env, backupDir))
      ensures filesBackuped == [] && Valid()
      ensures qtDir == old(qtDir) && backupDir == old(backupDir) && tempBackup == old(tempBackup)
    {
      disk.files := RemoveTree(disk.files, AbsPath(env, backupDir));
      filesBackuped := [];
    }

    /** Backup::~Backup: only a temporary backup directory is removed. */
    method Finish(env: Env, disk: Disk)
      requires Valid()
      modifies this, disk
      ensures disk.files == if tempBackup then RemoveTree(old(disk.files), AbsPath(env, backupDir)) else old(disk.files)
      ensures tempBackup == old(tempBackup) && backupDir == old(backupDir)
    {
      if tempBackup {
        Destroy(env, disk);
      }
    }
  }
}
