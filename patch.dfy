/**
 * The patching phases (patch.cpp): step 3 asks every registered patcher
 * for the files it wants to patch and keeps the patchers that found some;
 * step 4 backs up and patches those files one by one, stops at the first
 * patch that fails and then copies the backups back.
 */
module Patch {
  import opened Wrappers
  import opened Text
  import opened Paths
  import opened Files
  import opened Settings
  import Backup
  import Binary
  import CMake
  import La
  import Pc
  import Pri
  import Prl
  import QmakeConf
  import QtConf

  /** The registered patchers. */
  datatype Kind =
    | BinaryPatcher
    | CMakePatcher
    | LaPatcher
    | PcPatcher
    | PriPatcher
    | PrlPatcher
    | QMakeConfPatcher
    | QtConfPatcher

  /** Patcher::findFileToPatch of each patcher. */
  function Discover(k: Kind, st: Settings, env: Env, fs: FS): seq<string>
  {
    match k
    case BinaryPatcher => Binary.FindFileToPatch(st, env, fs)
    case CMakePatcher => CMake.FindSpec(st, env, fs)
    case LaPatcher => La.FindSpec(st, env, fs)
    case PcPatcher => Pc.FindSpec(st, env, fs)
    case PriPatcher => Pri.FindSpec(st, env, fs).0
    case PrlPatcher => Prl.FindSpec(st, env, fs)
    case QMakeConfPatcher => QmakeConf.FindFileToPatch(st, env, fs)
    case QtConfPatcher => QtConf.FindFileToPatch(st, env, fs)
  }

  /** Patcher::patchFile of each patcher. */
  function PatchSpec(k: Kind, st: Settings, env: Env, fs: FS, file: string): (bool, FS)
  {
    match k
    case BinaryPatcher => Binary.PatchFileSpec(st, env, fs, file)
    case CMakePatcher => CMake.PatchFileSpec(st, env, fs, file)
    case LaPatcher => La.PatchFileSpec(st, env, fs, file)
    case PcPatcher => Pc.PatchFileSpec(st, env, fs, file)
    case PriPatcher => Pri.PatchFileSpec(st, env, fs, file)
    case PrlPatcher => Prl.PatchFileSpec(st, env, fs, file)
    case QMakeConfPatcher => QmakeConf.PatchFileSpecAsWritten(st, env, fs, file)
    case QtConfPatcher => QtConf.PatchFileSpec(st, env, fs, file)
  }

  /** A new instance of the patcher, asked for its files. */
  method FindFiles(k: Kind, st: Settings, env: Env, fs: FS) returns (files: seq<string>)
    ensures files == Discover(k, st, env, fs)
  {
    match k
    case BinaryPatcher => files := Binary.FindFileToPatch(st, env, fs);
    case CMakePatcher => files := CMake.FindFileToPatch(st, env, fs);
    case LaPatcher => files := La.FindFileToPatch(st, env, fs);
    case PcPatcher => files := Pc.FindFileToPatch(st, env, fs);
    case PriPatcher =>
      var warnings;
      files, warnings := Pri.FindFileToPatch(st, env, fs);
    case PrlPatcher =>
      var p := new Prl.PrlPatcher();
      files := p.FindFileToPatch(st, env, fs);
    case QMakeConfPatcher => files := QmakeConf.FindFileToPatch(st, env, fs);
    case QtConfPatcher => files := QtConf.FindFileToPatch(st, env, fs);
  }

  method PatchWith(k: Kind, st: Settings, env: Env, disk: Disk, file: string) returns (ok: bool)
    modifies disk
    ensures (ok, disk.files) == PatchSpec(k, st, env, old(disk.files), file)
  {
    match k
    case BinaryPatcher => ok := Binary.PatchFile(st, env, disk, file);
    case CMakePatcher => ok := CMake.PatchFile(st, env, disk, file);
    case LaPatcher => ok := La.PatchFile(st, env, disk, file);
    case PcPatcher => ok := Pc.PatchFile(st, env, disk, file);
    case PriPatcher => ok := Pri.PatchFile(st, env, disk, file);
    case PrlPatcher => ok := Prl.PatchFile(st, env, disk, file);
    case QMakeConfPatcher => ok := QmakeConf.PatchFileAsWritten(st, env, disk, file);
    case QtConfPatcher => ok := QtConf.PatchFile(st, env, disk, file);
  }

  /**
   * What step 3 puts in patcherFileMap: each registered patcher that found
   * files, with those files; the others are deleted.
   */
  function Discovered(st: Settings, env: Env, fs: FS, registry: seq<Kind>): (m: map<Kind, seq<string>>)
    ensures forall k :: k in m <==> k in registry && Discover(k, st, env, fs) != []
    ensures forall k :: k in m ==> m[k] == Discover(k, st, env, fs)
  {
    if |registry| == 0 then map[]
    else
      var k := registry[|registry| - 1];
      var rest := Discovered(st, env, fs, registry[..|registry| - 1]);
      assert forall x :: x in registry <==> x in registry[..|registry| - 1] || x == k;
      if Discover(k, st, env, fs) != [] then rest[k := Discover(k, st, env, fs)] else rest
  }

  /** step3. */
  method Step3(st: Settings, env: Env, fs: FS, registry: seq<Kind>) returns (m: map<Kind, seq<string>>)
    ensures m == Discovered(st, env, fs, registry)
  {
    m := map[];
    var i := 0;
    while i < |registry|
      invariant 0 <= i <= |registry|
      invariant m == Discovered(st, env, fs, registry[..i])
    {
      assert registry[..i + 1][..i] == registry[..i];
      var l := FindFiles(registry[i], st, env, fs);
      if l != [] {
        m := m[registry[i] := l];
      }
      i := i + 1;
    }
    assert registry[..i] == registry;
  }

  /** One entry of patcherFileMap: a patcher and the files it found. */
  datatype Entry = Entry(patcher: Kind, files: seq<string>)

  /**
   * patcherFileMap's entries in the order of its keys. The keys are
   * the addresses of the patcher instances, so the order is the one in which
   * the instances happen to lie in memory: order lists the patchers in
   * that order, and those that are keys give the entries.
   */
  function InKeyOrder(m: map<Kind, seq<string>>, order: seq<Kind>): (plan: seq<Entry>)
    ensures |plan| <= |order|
    ensures forall e :: e in plan <==> e.patcher in order && e.patcher in m && e.files == m[e.patcher]
  {
    if |order| == 0 then []
    else
      var k := order[|order| - 1];
      var init := InKeyOrder(m, order[..|order| - 1]);
      assert forall x :: x in order <==> x in order[..|order| - 1] || x == k;
      if k in m then init + [Entry(k, m[k])] else init
  }

  /** Each patcher appears at most once in an order that names it at most once. */
  lemma {:induction false} KeyOrderOnce(m: map<Kind, seq<string>>, order: seq<Kind>)
    requires forall i, j :: 0 <= i < j < |order| ==> order[i] != order[j]
    ensures forall i, j :: 0 <= i < j < |InKeyOrder(m, order)| ==> InKeyOrder(m, order)[i].patcher != InKeyOrder(m, order)[j].patcher
  {
    if |order| > 0 {
      var init := order[..|order| - 1];
      var k := order[|order| - 1];
      assert forall i :: 0 <= i < |init| ==> init[i] == order[i];
      KeyOrderOnce(m, init);
      var a := InKeyOrder(m, init);
      assert k !in init;
      if k in m {
        var plan := a + [Entry(k, m[k])];
        assert InKeyOrder(m, order) == plan;
        assert forall i :: 0 <= i < |a| ==> plan[i] == a[i];
        forall i | 0 <= i < |a|
          ensures plan[i].patcher != k
        {
          assert a[i] in a;
        }
      } else {
        assert InKeyOrder(m, order) == a;
      }
    }
  }

  /**
   * When the memory order covers every registered patcher once, step 4's
   * plan holds every patcher that found files exactly once, with its
   * files, and nothing else.
   */
  lemma PlanIsDiscovery(st: Settings, env: Env, fs: FS, registry: seq<Kind>, order: seq<Kind>)
    requires forall k :: k in registry ==> k in order
    requires forall i, j :: 0 <= i < j < |order| ==> order[i] != order[j]
    ensures var plan := InKeyOrder(Discovered(st, env, fs, registry), order);
      (forall e :: e in plan <==> e.patcher in registry && e.files != [] && e.files == Discover(e.patcher, st, env, fs))
      && forall i, j :: 0 <= i < j < |plan| ==> plan[i].patcher != plan[j].patcher
  {
    KeyOrderOnce(Discovered(st, env, fs, registry), order);
  }

  /** One file to patch with one patcher. */
  datatype Job = Job(patcher: Kind, file: string)

  function EntryJobs(e: Entry): (js: seq<Job>)
    ensures |js| == |e.files|
    ensures forall i :: 0 <= i < |e.files| ==> js[i] == Job(e.patcher, e.files[i])
  {
    seq(|e.files|, i requires 0 <= i < |e.files| => Job(e.patcher, e.files[i]))
  }

  /** The files of the plan in the order step 4 visits them. */
  function Jobs(plan: seq<Entry>): seq<Job>
  {
    if |plan| == 0 then [] else Jobs(plan[..|plan| - 1]) + EntryJobs(plan[|plan| - 1])
  }

  /** Where step 4 stands: whether every patch so far succeeded, the files, and the backup records. */
  datatype RunState = RunState(ok: bool, fs: FS, rec: seq<string>)

  /** One turn of step 4's inner loop: back the file up, whatever that reports, then patch it. */
  function JobStep(st: Settings, env: Env, bd: string, s: RunState, j: Job): RunState
  {
    var (_, fs1, rec1) := Backup.BackupSpec(env, st.qtDir, bd, s.fs, s.rec, j.file);
    var (ok, fs2) := PatchSpec(j.patcher, st, env, fs1, j.file);
    RunState(ok, fs2, rec1)
  }

  /** Step 4's loops from a given state: each job in turn, until one patch fails. */
  function Run(st: Settings, env: Env, bd: string, s0: RunState, js: seq<Job>): RunState
  {
    if |js| == 0 then s0
    else
      var s := Run(st, env, bd, s0, js[..|js| - 1]);
      if !s.ok then s else JobStep(st, env, bd, s, js[|js| - 1])
  }

  /** Running one more job. */
  lemma RunStep(st: Settings, env: Env, bd: string, s0: RunState, js: seq<Job>, i: int)
    requires 0 <= i < |js|
    ensures Run(st, env, bd, s0, js[..i + 1])
      == if Run(st, env, bd, s0, js[..i]).ok then JobStep(st, env, bd, Run(st, env, bd, s0, js[..i]), js[i])
         else Run(st, env, bd, s0, js[..i])
  {
    assert js[..i + 1][..i] == js[..i];
  }

  /** After a failure nothing more is done. */
  lemma {:induction false} RunStops(st: Settings, env: Env, bd: string, s: RunState, js: seq<Job>)
    requires !s.ok
    ensures Run(st, env, bd, s, js) == s
  {
    if |js| > 0 {
      RunStops(st, env, bd, s, js[..|js| - 1]);
    }
  }

  /** Running two lists of jobs one after the other is running them together. */
  lemma {:induction false} RunAppend(st: Settings, env: Env, bd: string, s0: RunState, a: seq<Job>, b: seq<Job>)
    ensures Run(st, env, bd, s0, a + b) == Run(st, env, bd, Run(st, env, bd, s0, a), b)
  {
    if |b| == 0 {
      assert a + b == a;
    } else {
      var b' := b[..|b| - 1];
      assert (a + b)[..|a + b| - 1] == a + b';
      assert (a + b)[|a + b| - 1] == b[|b| - 1];
      RunAppend(st, env, bd, s0, a, b');
    }
  }

  /** Job n is the first to fail and the run ends with it. */
  predicate FailsAt(st: Settings, env: Env, bd: string, s0: RunState, js: seq<Job>, n: int)
  {
    0 <= n < |js| && Run(st, env, bd, s0, js[..n]).ok
    && !Run(st, env, bd, s0, js[..n + 1]).ok && Run(st, env, bd, s0, js) == Run(st, env, bd, s0, js[..n + 1])
  }

  /**
   * Step 4 stops at the first failing patch: when the run fails, some job
   * failed after all those before it succeeded, and nothing after it was done.
   */
  lemma {:induction false} FirstFailure(st: Settings, env: Env, bd: string, s0: RunState, js: seq<Job>)
    requires s0.ok && !Run(st, env, bd, s0, js).ok
    ensures exists n :: FailsAt(st, env, bd, s0, js, n)
  {
    var m := |js| - 1;
    var init := js[..m];
    if Run(st, env, bd, s0, init).ok {
      assert FailsAt(st, env, bd, s0, js, m) by {
        assert js[..m + 1] == js;
      }
    } else {
      FirstFailure(st, env, bd, s0, init);
      var n :| FailsAt(st, env, bd, s0, init, n);
      assert FailsAt(st, env, bd, s0, js, n) by {
        assert js[..m + 1] == js;
        assert init[..n] == js[..n] && init[..n + 1] == js[..n + 1];
        RunStep(st, env, bd, s0, js, m);
      }
    }
  }

  /** A successful run had every patch succeed. */
  lemma {:induction false} SuccessMeansAllPatched(st: Settings, env: Env, bd: string, s0: RunState, js: seq<Job>, n: nat)
    requires Run(st, env, bd, s0, js).ok && n <= |js|
    ensures Run(st, env, bd, s0, js[..n]).ok
  {
    if n == |js| {
      assert js[..n] == js;
    } else {
      var init := js[..|js| - 1];
      RunStep(st, env, bd, s0, js, |js| - 1);
      assert js[..|js|] == js;
      assert Run(st, env, bd, s0, init).ok;
      assert init[..n] == js[..n];
      SuccessMeansAllPatched(st, env, bd, s0, init, n);
    }
  }

  /** A file whose backup is refused is patched all the same, and nothing is recorded for it. */
  lemma RefusedBackupStillPatched(st: Settings, env: Env, bd: string, s: RunState, j: Job)
    requires !Backup.Accepted(env, j.file)
    ensures JobStep(st, env, bd, s, j) == RunState(PatchSpec(j.patcher, st, env, s.fs, j.file).0, PatchSpec(j.patcher, st, env, s.fs, j.file).1, s.rec)
  {
  }

  /** Every record of a run is a cleaned path without "..", one at most per job. */
  lemma {:induction false} RunRecords(st: Settings, env: Env, bd: string, fs: FS, js: seq<Job>)
    ensures var r := Run(st, env, bd, RunState(true, fs, []), js).rec;
      |r| <= |js| && forall f :: f in r ==> !Contains(f, "..")
  {
    if |js| > 0 {
      RunRecords(st, env, bd, fs, js[..|js| - 1]);
    }
  }

  /** What step 4 does: the run, the backups copied back when it failed, and a temporary backup directory removed. */
  function Step4Spec(st: Settings, env: Env, temp: Option<string>, fs: FS, plan: seq<Entry>): (r: (bool, FS))
    ensures r.0 <==> Run(st, env, Backup.BackupDirOf(st, temp), RunState(true, fs, []), Jobs(plan)).ok
  {
    var bd := Backup.BackupDirOf(st, temp);
    var s := Run(st, env, bd, RunState(true, fs, []), Jobs(plan));
    var fs1 := if s.ok then s.fs else Backup.Restored(env, st.qtDir, bd, s.fs, s.rec, false);
    var fs2 := if Backup.TempBackupOf(st, temp) then RemoveTree(fs1, AbsPath(env, bd)) else fs1;
    (s.ok, fs2)
  }

  /**
   * A failed step 4 leaves every file the run left in place as it is:
   * copying the backups back with QFile::copy meets the patched files and
   * leaves them patched. Only a removed temporary backup directory loses
   * its files.
   */
  lemma FailedRunKeepsPatched(st: Settings, env: Env, temp: Option<string>, fs: FS, plan: seq<Entry>, p: string)
    requires var s := Run(st, env, Backup.BackupDirOf(st, temp), RunState(true, fs, []), Jobs(plan));
      !s.ok && p in s.fs
    requires Backup.TempBackupOf(st, temp) ==> !StartsWith(p, AbsPath(env, Backup.BackupDirOf(st, temp)) + "/")
    ensures var s := Run(st, env, Backup.BackupDirOf(st, temp), RunState(true, fs, []), Jobs(plan));
      p in Step4Spec(st, env, temp, fs, plan).1 && Step4Spec(st, env, temp, fs, plan).1[p] == s.fs[p]
  {
    var bd := Backup.BackupDirOf(st, temp);
    var s := Run(st, env, bd, RunState(true, fs, []), Jobs(plan));
    Backup.ReplayAsWrittenKeeps(s.fs, Backup.Moves(env, st.qtDir, bd, s.rec), p);
  }

  /** step4's inner loop over the files one patcher found. */
  method PatchEntry(st: Settings, env: Env, disk: Disk, backup: Backup.Backup, e: Entry, ghost s0: RunState) returns (fail: bool)
    requires backup.Valid() && backup.qtDir == st.qtDir
    requires s0.ok && s0.fs == disk.files && s0.rec == backup.filesBackuped
    modifies disk, backup
    ensures backup.Valid() && backup.qtDir == old(backup.qtDir) && backup.backupDir == old(backup.backupDir)
    ensures backup.tempBackup == old(backup.tempBackup)
    ensures Run(st, env, old(backup.backupDir), s0, EntryJobs(e)) == RunState(!fail, disk.files, backup.filesBackuped)
  {
    var bd := backup.backupDir;
    var js := EntryJobs(e);
    fail := false;
    var j := 0;
    while j < |e.files| && !fail
      invariant 0 <= j <= |e.files|
      invariant backup.Valid() && backup.qtDir == st.qtDir && backup.backupDir == bd
      invariant backup.tempBackup == old(backup.tempBackup)
      invariant Run(st, env, bd, s0, js[..j]) == RunState(!fail, disk.files, backup.filesBackuped)
    {
      RunStep(st, env, bd, s0, js, j);
      var _ := backup.BackupOneFile(env, disk, e.files[j]);
      var ok := PatchWith(e.patcher, st, env, disk, e.files[j]);
      fail := !ok;
      j := j + 1;
    }
    if fail {
      RunStops(st, env, bd, Run(st, env, bd, s0, js[..j]), js[j..]);
      RunAppend(st, env, bd, s0, js[..j], js[j..]);
      assert js[..j] + js[j..] == js;
    } else {
      assert js[..j] == js;
    }
  }

  /**
   * step4: back up and patch every file of every patcher in the order
   * given, stop at the first failure, copy the backups back then, and
   * report whether every patch succeeded.
   */
  method Step4(st: Settings, env: Env, disk: Disk, temp: Option<string>, plan: seq<Entry>) returns (ok: bool)
    modifies disk
    ensures (ok, disk.files) == Step4Spec(st, env, temp, old(disk.files), plan)
  {
    var backup := new Backup.Backup(st, temp);
    var bd := backup.backupDir;
    ghost var s0 := RunState(true, disk.files, []);
    var fail := false;
    var i := 0;
    while i < |plan| && !fail
      invariant 0 <= i <= |plan|
      invariant backup.Valid() && backup.qtDir == st.qtDir && backup.backupDir == bd == Backup.BackupDirOf(st, temp)
      invariant backup.tempBackup == Backup.TempBackupOf(st, temp)
      invariant Run(st, env, bd, s0, Jobs(plan[..i])) == RunState(!fail, disk.files, backup.filesBackuped)
    {
      ghost var s := RunState(true, disk.files, backup.filesBackuped);
      fail := PatchEntry(st, env, disk, backup, plan[i], s);
      PlanStep(st, env, bd, s0, plan, i);
      i := i + 1;
    }
    PlanStops(st, env, bd, s0, plan, i);
    if fail {
      var _ := backup.RestoreAllAsWritten(env, disk);
    }
    backup.Finish(env, disk);
    ok := !fail;
  }

  /** The jobs of a plan are those of its entries, one entry after the other. */
  lemma {:induction false} JobsAppend(a: seq<Entry>, b: seq<Entry>)
    ensures Jobs(a + b) == Jobs(a) + Jobs(b)
  {
    if |b| == 0 {
      assert a + b == a;
    } else {
      var b', e := b[..|b| - 1], b[|b| - 1];
      assert (a + b)[..|a + b| - 1] == a + b';
      assert (a + b)[|a + b| - 1] == e;
      assert Jobs(a + b) == Jobs(a + b') + EntryJobs(e);
      JobsAppend(a, b');
      assert Jobs(b) == Jobs(b') + EntryJobs(e);
    }
  }

  /** One more turn of step 4's outer loop. */
  lemma PlanStep(st: Settings, env: Env, bd: string, s0: RunState, plan: seq<Entry>, i: int)
    requires 0 <= i < |plan|
    ensures Run(st, env, bd, s0, Jobs(plan[..i + 1])) == Run(st, env, bd, Run(st, env, bd, s0, Jobs(plan[..i])), EntryJobs(plan[i]))
  {
    assert plan[..i + 1][..i] == plan[..i];
    assert Jobs(plan[..i + 1]) == Jobs(plan[..i]) + EntryJobs(plan[i]);
    RunAppend(st, env, bd, s0, Jobs(plan[..i]), EntryJobs(plan[i]));
  }

  /** Leaving step 4's outer loop, by failure or at the end, is leaving the whole run. */
  lemma PlanStops(st: Settings, env: Env, bd: string, s0: RunState, plan: seq<Entry>, i: int)
    requires 0 <= i <= |plan|
    requires i == |plan| || !Run(st, env, bd, s0, Jobs(plan[..i])).ok
    ensures Run(st, env, bd, s0, Jobs(plan)) == Run(st, env, bd, s0, Jobs(plan[..i]))
  {
    if i == |plan| {
      assert plan[..i] == plan;
    } else {
      JobsAppend(plan[..i], plan[i..]);
      assert plan[..i] + plan[i..] == plan;
      RunAppend(st, env, bd, s0, Jobs(plan[..i]), Jobs(plan[i..]));
      RunStops(st, env, bd, Run(st, env, bd, s0, Jobs(plan[..i])), Jobs(plan[i..]));
    }
  }
}
