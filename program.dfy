/**
 * The run of the program (main.cpp): the settings it was started with,
 * a warning for unknown parameters, the preparation (steps 1 to 3), the
 * version warning, the patch phase unless the Qt directory is already in
 * place and nothing forces it, the cleanup, and the exit code.
 */
module Program {
  import opened Wrappers
  import opened Paths
  import opened Files
  import opened Settings
  import opened Probe
  import opened Patch

  /** How the process ends: an exit code, or qFatal during preparation. */
  datatype Exit = Exit(code: int) | Aborted(reason: string)

  /** What prepare leaves: the settings or the reason the process ends, the warnings, and patcherFileMap. */
  datatype Preparation = Preparation(outcome: Outcome<Settings>, warnings: seq<Warning>, fileMap: map<Kind, seq<string>>)

  /** The warning about unknown parameters, if there are any. */
  function ParameterWarnings(st: Settings): (w: seq<Warning>)
    ensures w == [] <==> st.unknownParameters == []
  {
    if st.unknownParameters != [] then [UnknownParameters] else []
  }

  /** The warning warnAboutUnsupportedQtVersion prints, if any. */
  function VersionWarnings(st: Settings): (w: seq<Warning>)
    ensures w == [] <==> Supported(st)
  {
    if VersionVerdict(st) == Silent then [] else [UnsupportedVersion]
  }

  /** prepare: step 1, step 2 on qmake's answer, and step 3 over the registered patchers. */
  function PrepareSpec(st: Settings, env: Env, fs: FS, answer: string, registry: seq<Kind>): (r: Preparation)
    ensures r.outcome.Fatal? ==> r.fileMap == map[]
  {
    match Step1Spec(st, env, fs)
    case Fatal(reason) => Preparation(Fatal(reason), [], map[])
    case Done(l) =>
      var st1 := Located1(st, l);
      var p := ParseQuery(st1, env, answer);
      match Step2Spec(st1, env, answer)
      case Fatal(reason) => Preparation(Fatal(reason), p.warnings, map[])
      case Done(p2) => Preparation(Done(p2.st), p.warnings, Discovered(p2.st, env, fs, registry))
  }

  /**
   * The whole run: how it ends, the files it leaves, and the warnings it
   * printed. The patch phase runs when the old and new locations differ
   * or when forced; a skipped patch phase counts as success.
   */
  function RunSpec(st: Settings, env: Env, fs: FS, answer: string, registry: seq<Kind>, order: seq<Kind>, temp: Option<string>)
    : (r: (Exit, FS, seq<Warning>))
  {
    var w0 := ParameterWarnings(st);
    var prep := PrepareSpec(st, env, fs, answer, registry);
    match prep.outcome
    case Fatal(reason) => (Aborted(reason), fs, w0 + prep.warnings)
    case Done(st2) =>
      var w := w0 + prep.warnings + VersionWarnings(st2);
      if !ShouldForce(st2, env) || st2.force then
        var (ok, fs2) := Step4Spec(st2, env, temp, fs, InKeyOrder(prep.fileMap, order));
        (Exit(if ok then 0 else 1), fs2, w)
      else (Exit(0), fs, w)
  }

  /** ArgumentsAndSettings and patcherFileMap: the state the run works on. */
  class Engine {
    var settings: Settings
    var warnings: seq<Warning>
    var patcherFileMap: map<Kind, seq<string>>

    /** The parsed settings, with the warning about unknown parameters. */
    constructor (st: Settings)
      ensures settings == st && warnings == ParameterWarnings(st) && patcherFileMap == map[]
    {
      settings := st;
      warnings := ParameterWarnings(st);
      patcherFileMap := map[];
    }

    /** prepare; a fatal reason ends the process. */
    method Prepare(env: Env, fs: FS, answer: string, registry: seq<Kind>) returns (fatal: Option<string>)
      requires patcherFileMap == map[]
      modifies this
      ensures var r := PrepareSpec(old(settings), env, fs, answer, registry);
        fatal == (if r.outcome.Fatal? then Some(r.outcome.reason) else None)
        && warnings == old(warnings) + r.warnings && patcherFileMap == r.fileMap
        && (r.outcome.Done? ==> settings == r.outcome.value)
    {
      var l := Step1(settings, env, fs);
      if l.Fatal? {
        assert PrepareSpec(settings, env, fs, answer, registry) == Preparation(Fatal(l.reason), [], map[]);
        assert warnings + [] == warnings;
        return Some(l.reason);
      }
      var st1 := Located1(settings, l.value);
      var w := ParseQuery(st1, env, answer).warnings;
      settings := st1;
      var p := Step2(st1, env, answer);
      warnings := warnings + w;
      if p.Fatal? {
        assert PrepareSpec(old(settings), env, fs, answer, registry) == Preparation(Fatal(p.reason), w, map[]);
        return Some(p.reason);
      }
      assert PrepareSpec(old(settings), env, fs, answer, registry)
        == Preparation(Done(p.value.st), w, Discovered(p.value.st, env, fs, registry));
      settings := p.value.st;
      patcherFileMap := Step3(settings, env, fs, registry);
      fatal := None;
    }

    /** warnAboutUnsupportedQtVersion. */
    method WarnAboutUnsupportedQtVersion()
      modifies this
      ensures warnings == old(warnings) + VersionWarnings(settings)
      ensures settings == old(settings) && patcherFileMap == old(patcherFileMap)
    {
      warnings := warnings + VersionWarnings(settings);
    }

    /** patch: step 4 over patcherFileMap in the order of its keys. */
    method Patch(env: Env, disk: Disk, temp: Option<string>, order: seq<Kind>) returns (ok: bool)
      modifies disk
      ensures (ok, disk.files) == Step4Spec(settings, env, temp, old(disk.files), InKeyOrder(patcherFileMap, order))
    {
      ok := Step4(settings, env, disk, temp, InKeyOrder(patcherFileMap, order));
    }

    /** cleanup: the patchers are deleted and the map emptied. */
    method Cleanup()
      modifies this
      ensures patcherFileMap == map[]
      ensures settings == old(settings) && warnings == old(warnings)
    {
      patcherFileMap := map[];
    }
  }

  /**
   * main, from the parsed settings on; the application directory is the
   * current directory of env.
   */
  method RunProgram(st: Settings, env: Env, disk: Disk, answer: string, registry: seq<Kind>, order: seq<Kind>, temp: Option<string>)
    returns (exit: Exit, warnings: seq<Warning>)
    modifies disk
    ensures (exit, disk.files, warnings) == RunSpec(st, env, old(disk.files), answer, registry, order, temp)
  {
    var engine := new Engine(st);
    var fatal := engine.Prepare(env, disk.files, answer, registry);
    if fatal.Some? {
      return Aborted(fatal.value), engine.warnings;
    }
    engine.WarnAboutUnsupportedQtVersion();
    var success := true;
    if !ShouldForce(engine.settings, env) || engine.settings.force {
      success := engine.Patch(env, disk, temp, order);
    }
    engine.Cleanup();
    exit := Exit(if success then 0 else 1);
    warnings := engine.warnings;
  }

  /** The exit code is 0 exactly when the patch phase was skipped or every patch succeeded, and 1 otherwise. */
  lemma ExitCode(st: Settings, env: Env, fs: FS, answer: string, registry: seq<Kind>, order: seq<Kind>, temp: Option<string>)
    requires PrepareSpec(st, env, fs, answer, registry).outcome.Done?
    ensures var prep := PrepareSpec(st, env, fs, answer, registry);
      var st2 := prep.outcome.value;
      var plan := InKeyOrder(prep.fileMap, order);
      var e := RunSpec(st, env, fs, answer, registry, order, temp).0;
      e.Exit? && (e.code == 0 || e.code == 1)
      && (e.code == 0 <==>
            ((ShouldForce(st2, env) && !st2.force)
             || Patch.Run(st2, env, Backup.BackupDirOf(st2, temp), RunState(true, fs, []), Jobs(plan)).ok))
  {
  }

  /** When the Qt directory already is at its new location and nothing forces it, the run changes no file and succeeds. */
  lemma SkippedRunChangesNothing(st: Settings, env: Env, fs: FS, answer: string, registry: seq<Kind>, order: seq<Kind>, temp: Option<string>)
    requires PrepareSpec(st, env, fs, answer, registry).outcome.Done?
    requires var st2 := PrepareSpec(st, env, fs, answer, registry).outcome.value; ShouldForce(st2, env) && !st2.force
    ensures RunSpec(st, env, fs, answer, registry, order, temp).0 == Exit(0)
    ensures RunSpec(st, env, fs, answer, registry, order, temp).1 == fs
  {
  }

  /** A run that ends in qFatal during preparation has changed no file. */
  lemma AbortChangesNothing(st: Settings, env: Env, fs: FS, answer: string, registry: seq<Kind>, order: seq<Kind>, temp: Option<string>)
    requires PrepareSpec(st, env, fs, answer, registry).outcome.Fatal?
    ensures RunSpec(st, env, fs, answer, registry, order, temp).0.Aborted?
    ensures RunSpec(st, env, fs, answer, registry, order, temp).1 == fs
  {
  }

  /** Unknown parameters draw a warning, printed before any other. */
  lemma UnknownParametersWarnFirst(st: Settings, env: Env, fs: FS, answer: string, registry: seq<Kind>, order: seq<Kind>, temp: Option<string>)
    requires st.unknownParameters != []
    ensures var w := RunSpec(st, env, fs, answer, registry, order, temp).2;
      |w| > 0 && w[0] == UnknownParameters
  {
    var w0 := ParameterWarnings(st);
    assert w0 == [UnknownParameters];
    var prep := PrepareSpec(st, env, fs, answer, registry);
    match prep.outcome
    case Fatal(reason) =>
      assert RunSpec(st, env, fs, answer, registry, order, temp).2 == w0 + prep.warnings;
    case Done(st2) =>
      assert RunSpec(st, env, fs, answer, registry, order, temp).2 == w0 + prep.warnings + VersionWarnings(st2);
  }
}
