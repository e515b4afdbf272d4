/**
 * The qmake .prl patcher (PrlPatcher). Every .prl file in lib records, on its
 * QMAKE_PRL_LIBS line, the libraries a Qt library links against: "-L"
 * search paths, "-l" names and absolute file paths. For Qt 4 it also
 * records, on QMAKE_PRL_BUILD_DIR, the directory the library was built in.
 * The patcher moves the entries that point into the old lib directory (and,
 * for Qt 4 with a configured build directory, into the build tree's lib
 * directory) to the new one, and moves a Qt 4 build directory that lies
 * under the old prefix or the build directory to the same place under the
 * new prefix.
 */
module Prl {
  import opened Wrappers
  import opened Text
  import opened Paths
  import opened Files
  import opened Settings
  import opened QtDir
  import opened TextFile
  import La

  const Filters: seq<string> := ["*.prl"]
  const LibRel := "lib/"
  const LibsKey := "QMAKE_PRL_LIBS"
  const BuildDirKey := "QMAKE_PRL_BUILD_DIR"

  /** buildDir + "/lib": the lib directory of the tree Qt was compiled in. */
  function BuildLib(st: Settings): string
  {
    st.buildDir + "/lib"
  }

  /** Build-tree entries are moved only for Qt 4, and only when a build directory is configured. */
  predicate Qt4Build(st: Settings)
  {
    st.buildDir != "" && Major(st) == 4
  }

  /** QDir(p with doubled backslashes undone) == buildLibDir. */
  predicate InBuildLib(st: Settings, env: Env, p: string)
  {
    SamePath(env, Unescape(p), BuildLib(st))
  }

  /** The file n lies in the build tree's lib directory. */
  predicate FileInBuildLib(st: Settings, env: Env, n: string)
  {
    AbsDir(env, Unescape(n)) == AbsPath(env, BuildLib(st))
  }

  /** QFileInfo(n with doubled backslashes undone).isAbsolute(). */
  predicate AbsoluteEntry(env: Env, n: string)
  {
    IsAbsolute(FromNative(env, Unescape(n)))
  }

  /** QFileInfo(newLibDir, fi.fileName()).absoluteFilePath(): the file of the same name in the new lib directory. */
  function NewLibFile(st: Settings, env: Env, n: string): string
  {
    AbsFilePath(env, La.NewLibDir(st), FileName(env, Unescape(n)))
  }

  /** A moved file entry written with native separators and every backslash doubled. */
  function NativeEntry(st: Settings, env: Env, n: string): string
  {
    Escape(ToNative(env, NewLibFile(st, env, n)))
  }

  /** A moved file entry: forward slashes for Qt 5, native separators with doubled backslashes otherwise. */
  function MovedEntry(st: Settings, env: Env, n: string): string
  {
    if Major(st) == 5 then FromNative(env, NewLibFile(st, env, n)) else NativeEntry(st, env, n)
  }

  /** A search path that is moved: the old lib directory, or the build tree's lib directory for a Qt 4 build. */
  predicate MovedSearch(st: Settings, env: Env, p: string)
  {
    La.InOldLib(st, env, p) || (Qt4Build(st) && InBuildLib(st, env, p))
  }

  /** patchQmakePrlLibs on one entry. */
  function PrlToken(st: Settings, env: Env, n: string): string
  {
    if StartsWith(n, "-L=") then
      (if MovedSearch(st, env, n[3..]) then "-L=" + FromNative(env, La.NewLib(st, env)) else n)
    else if StartsWith(n, "-L") then
      (if MovedSearch(st, env, n[2..]) then "-L" + FromNative(env, La.NewLib(st, env)) else n)
    else if StartsWith(n, "-l") then n
    else if AbsoluteEntry(env, n) && La.FileInOldLib(st, env, n) then MovedEntry(st, env, n)
    else if Qt4Build(st) && AbsoluteEntry(env, n) && FileInBuildLib(st, env, n) then NativeEntry(st, env, n)
    else n
  }

  function Relocate(st: Settings, env: Env): string -> string
  {
    n => PrlToken(st, env, n)
  }

  function MapTokens(st: Settings, env: Env, toks: seq<string>): seq<string>
  {
    MapLines(Relocate(st, env), toks)
  }

  /** patchQmakePrlLibs: the value split at spaces, empty parts dropped, every entry patched, joined by single spaces. */
  function PatchLibs(st: Settings, env: Env, value: string): string
  {
    Join(MapTokens(st, env, SplitSkipEmpty(value, ' ')), ' ')
  }

  /** QDir(oldDir).relativeFilePath(value), or relative to the build directory when that climbs out and one is configured. */
  function BuildRel(st: Settings, env: Env, value: string): string
  {
    var rp := RelativeFilePath(env, st.oldDir, value);
    if Contains(rp, "..") && st.buildDir != "" then RelativeFilePath(env, st.buildDir, value) else rp
  }

  /** Whether a Qt 4 QMAKE_PRL_BUILD_DIR value lies inside the old prefix or the configured build directory. */
  predicate BuildDirMoves(st: Settings, env: Env, value: string)
  {
    Major(st) == 4 && !Contains(BuildRel(st, env, value), "..")
  }

  /** The new build directory: the same relative path under the new prefix. */
  function MovedBuildDir(st: Settings, env: Env, value: string): string
  {
    FromNative(env, CleanPath(env, AbsPath(env, st.newDir) + "/" + BuildRel(st, env, value)))
  }

  function KeyLine(key: string, value: string): string
  {
    key + " = " + value + "\n"
  }

  /** The line patchFile writes for a line l that assigns value to key. */
  function AssignedLine(st: Settings, env: Env, l: string, key: string, value: string): (r: string)
    ensures r != l ==> key == LibsKey || (key == BuildDirKey && Major(st) == 4)
  {
    if key == LibsKey then KeyLine(LibsKey, PatchLibs(st, env, value))
    else if key == BuildDirKey && BuildDirMoves(st, env, value) then KeyLine(BuildDirKey, MovedBuildDir(st, env, value))
    else l
  }

  /** The line patchFile writes for one line it reads; a line without '=' is copied as it is. */
  function PrlLine(st: Settings, env: Env, l: string): (r: string)
    ensures Assignment(l).None? ==> r == l
  {
    match Assignment(l)
    case None => l
    case Some((key, value)) => AssignedLine(st, env, l, key, value)
  }

  function Rewrite(st: Settings, env: Env): string -> string
  {
    l => PrlLine(st, env, l)
  }

  /** shouldPatch's test on one QMAKE_PRL_LIBS entry, with its Qt 4 build-tree branch as written. */
  predicate TokenTriggersAsWritten(st: Settings, env: Env, n: string)
  {
    var afterEq, afterL := Mid(n, 3), Mid(n, 2);
    if StartsWith(n, "-L=") then La.InOldLib(st, env, afterEq)
    else if StartsWith(n, "-L") then La.InOldLib(st, env, afterL)
    else if !StartsWith(n, "-l") then La.FileInOldLib(st, env, n)
    else if Major(st) == 4 && st.buildDir != "" then
      if StartsWith(n, "-L=") then InBuildLib(st, env, afterEq)
      else if StartsWith(n, "-L") then InBuildLib(st, env, afterL)
      else if !StartsWith(n, "-l") then FileInBuildLib(st, env, n)
      else false
    else false
  }

  /** Whether shouldPatch stops at a QMAKE_PRL_BUILD_DIR value. */
  predicate BuildDirTriggers(st: Settings, env: Env, value: string)
  {
    Major(st) == 4
    && (!Contains(RelativeFilePath(env, st.oldDir, value), "..")
        || (st.buildDir != "" && !Contains(RelativeFilePath(env, st.buildDir, value), "..")))
  }

  /** Whether shouldPatch warns at a QMAKE_PRL_BUILD_DIR value: Qt 4, outside the old prefix, and no build directory to try. */
  predicate BuildDirWarns(st: Settings, env: Env, value: string)
  {
    Major(st) == 4 && Contains(RelativeFilePath(env, st.oldDir, value), "..") && st.buildDir == ""
  }

  /** Whether shouldPatch stops at a line assigning value to key. */
  predicate AssignedTriggers(st: Settings, env: Env, key: string, value: string)
  {
    if key == LibsKey then La.AnyOldToken(st, env, SplitSkipEmpty(value, ' '))
    else key == BuildDirKey && BuildDirTriggers(st, env, value)
  }

  /** Whether shouldPatch warns at a line assigning value to key. */
  predicate AssignedWarns(st: Settings, env: Env, key: string, value: string)
  {
    key != LibsKey && key == BuildDirKey && BuildDirWarns(st, env, value)
  }

  /** The line shouldPatch stops at. */
  predicate PrlTrigger(st: Settings, env: Env, l: string)
  {
    match Assignment(l)
    case None => false
    case Some((key, value)) => AssignedTriggers(st, env, key, value)
  }

  /** The line at which shouldPatch warns about a missing build directory. */
  predicate PrlWarns(st: Settings, env: Env, l: string)
  {
    match Assignment(l)
    case None => false
    case Some((key, value)) => AssignedWarns(st, env, key, value)
  }

  function Trigger(st: Settings, env: Env): string -> bool
  {
    l => PrlTrigger(st, env, l)
  }

  function Warns(st: Settings, env: Env): string -> bool
  {
    l => PrlWarns(st, env, l)
  }

  /** What shouldPatch answers for a name listed in lib. */
  predicate ShouldPatchSpec(st: Settings, env: Env, fs: FS, name: string)
  {
    QtHasDir(st, env, "lib") && AnyLineSpec(fs, La.LibPath(st, env, name), Trigger(st, env))
  }

  /** Whether shouldPatch, looking at a name listed in lib, reaches a line it warns at before it stops. */
  predicate WarnsSpec(st: Settings, env: Env, fs: FS, name: string)
  {
    QtHasDir(st, env, "lib") && Readable(fs, La.LibPath(st, env, name))
    && HitBeforeStop(LinesOf(fs[La.LibPath(st, env, name)]), Warns(st, env), Trigger(st, env))
  }

  function Keep(st: Settings, env: Env, fs: FS): string -> bool
  {
    name => ShouldPatchSpec(st, env, fs, name)
  }

  /** What findFileToPatch returns: the .prl files in lib that shouldPatch selects, with "lib/" in front. */
  function FindSpec(st: Settings, env: Env, fs: FS): seq<string>
  {
    if !QtHasDir(st, env, "lib") then []
    else Select(Listing(st, env, "lib", Filters), Keep(st, env, fs), LibRel)
  }

  function Warner(st: Settings, env: Env, fs: FS): string -> bool
  {
    name => WarnsSpec(st, env, fs, name)
  }

  /** shouldPatch warns for one of the names. */
  predicate WarnsSome(st: Settings, env: Env, fs: FS, names: seq<string>)
  {
    AnyHit(names, Warner(st, env, fs))
  }

  /** Whether findFileToPatch warns: shouldPatch warns for one of the listed names. */
  predicate FindWarns(st: Settings, env: Env, fs: FS)
  {
    QtHasDir(st, env, "lib") && WarnsSome(st, env, fs, Listing(st, env, "lib", Filters))
  }

  /** Looking at one more name selects it exactly when shouldPatch does. */
  lemma KeepStep(st: Settings, env: Env, fs: FS, names: seq<string>, i: int)
    requires 0 <= i < |names|
    ensures Select(names[..i + 1], Keep(st, env, fs), LibRel)
      == if ShouldPatchSpec(st, env, fs, names[i]) then Select(names[..i], Keep(st, env, fs), LibRel) + [LibRel + names[i]]
         else Select(names[..i], Keep(st, env, fs), LibRel)
  {
    SelectStep(names, Keep(st, env, fs), LibRel, i);
  }

  /** Looking at one more name adds its warning. */
  lemma WarnsSomeStep(st: Settings, env: Env, fs: FS, names: seq<string>, i: int)
    requires 0 <= i < |names|
    ensures WarnsSome(st, env, fs, names[..i + 1]) <==> WarnsSome(st, env, fs, names[..i]) || WarnsSpec(st, env, fs, names[i])
  {
    PrefixHitStep(names, Warner(st, env, fs), i);
  }

  /** What patchFile reports and leaves behind. */
  function PatchFileSpec(st: Settings, env: Env, fs: FS, file: string): (r: (bool, FS))
    ensures r.0 <==> Readable(fs, QtPath(st, env, file))
    ensures forall k :: k != QtPath(st, env, file) ==> (k in r.1 <==> k in fs)
    ensures forall k :: k != QtPath(st, env, file) && k in fs ==> r.1[k] == fs[k]
  {
    PatchLinesSpec(fs, QtPath(st, env, file), Rewrite(st, env))
  }

  /** The body of patchQmakePrlLibs's loop. */
  method RelocateToken(st: Settings, env: Env, n: string) returns (m: string)
    ensures m == PrlToken(st, env, n)
  {
    m := n;
    if StartsWith(n, "-L=") {
      if La.InOldLib(st, env, n[3..]) {
        m := "-L=" + FromNative(env, La.NewLib(st, env));
      } else if st.buildDir != "" && Major(st) == 4 {
        if InBuildLib(st, env, n[3..]) {
          m := "-L=" + FromNative(env, La.NewLib(st, env));
        }
      }
    } else if StartsWith(n, "-L") {
      if La.InOldLib(st, env, n[2..]) {
        m := "-L" + FromNative(env, La.NewLib(st, env));
      } else if st.buildDir != "" && Major(st) == 4 {
        if InBuildLib(st, env, n[2..]) {
          m := "-L" + FromNative(env, La.NewLib(st, env));
        }
      }
    } else if !StartsWith(n, "-l") {
      var absolute := AbsoluteEntry(env, n);
      if absolute && La.FileInOldLib(st, env, n) {
        if Major(st) == 5 {
          m := FromNative(env, NewLibFile(st, env, n));
        } else {
          m := NativeEntry(st, env, n);
        }
      } else if st.buildDir != "" && Major(st) == 4 {
        if absolute && FileInBuildLib(st, env, n) {
          m := NativeEntry(st, env, n);
        }
      }
    }
  }

  /** patchQmakePrlLibs. */
  method PatchQmakePrlLibs(st: Settings, env: Env, value: string) returns (r: string)
    ensures r == PatchLibs(st, env, value)
  {
    var toks := SplitSkipEmpty(value, ' ');
    var out: seq<string> := [];
    for i := 0 to |toks|
      invariant out == MapLines(Relocate(st, env), toks[..i])
    {
      var n := RelocateToken(st, env, toks[i]);
      MapStep(Relocate(st, env), toks, i);
      out := out + [n];
    }
    assert toks[..|toks|] == toks;
    r := Join(out, ' ');
  }

  /** The line cut at its first '=' is the assignment it makes. */
  lemma AssignmentAt(l: string, i: int)
    requires i == IndexOfChar(l, '=') && i != -1
    ensures Assignment(l) == Some((Trim(l[..i]), Trim(l[i + 1..])))
  {
  }

  /** A QMAKE_PRL_LIBS line is written back with its entries patched. */
  lemma AssignedLibs(st: Settings, env: Env, l: string, value: string)
    ensures AssignedLine(st, env, l, LibsKey, value) == KeyLine(LibsKey, PatchLibs(st, env, value))
  {
  }

  /** The body of patchFile's line loop, for a line that assigns value to key. */
  method RewriteAssigned(st: Settings, env: Env, l: string, key: string, value: string) returns (out: string)
    ensures out == AssignedLine(st, env, l, key, value)
  {
    out := l;
    if key == LibsKey {
      var patched := PatchQmakePrlLibs(st, env, value);
      out := KeyLine(LibsKey, patched);
      AssignedLibs(st, env, l, value);
    } else if key == BuildDirKey {
      if Major(st) == 4 {
        var rp := RelativeFilePath(env, st.oldDir, value);
        if Contains(rp, "..") {
          if st.buildDir != "" {
            rp := RelativeFilePath(env, st.buildDir, value);
          }
        }
        assert rp == BuildRel(st, env, value);
        if !Contains(rp, "..") {
          out := KeyLine(BuildDirKey, FromNative(env, CleanPath(env, AbsPath(env, st.newDir) + "/" + rp)));
          assert out == KeyLine(BuildDirKey, MovedBuildDir(st, env, value));
        }
      }
    }
  }

  /** The body of patchFile's line loop. */
  method RewriteLine(st: Settings, env: Env, l: string) returns (out: string)
    ensures out == PrlLine(st, env, l)
  {
    var equalMark := IndexOfChar(l, '=');
    if equalMark == -1 {
      return l;
    }
    var key := Trim(l[..equalMark]);
    var value := Trim(l[equalMark + 1..]);
    AssignmentAt(l, equalMark);
    out := RewriteAssigned(st, env, l, key, value);
  }

  /** patchFile's loop over the lines of the file, accumulating the bytes it writes back. */
  method RewriteLines(st: Settings, env: Env, lines: seq<string>) returns (toWrite: Bytes)
    ensures toWrite == Encode(Concat(MapLines(Rewrite(st, env), lines)))
  {
    toWrite := [];
    for i := 0 to |lines|
      invariant toWrite == Encode(Concat(MapLines(Rewrite(st, env), lines[..i])))
    {
      var out := RewriteLine(st, env, lines[i]);
      RewriteStep(Rewrite(st, env), lines, i);
      toWrite := toWrite + Encode(out);
    }
    assert lines[..|lines|] == lines;
  }

  /** PrlPatcher::patchFile. */
  method PatchFile(st: Settings, env: Env, disk: Disk, file: string) returns (ok: bool)
    modifies disk
    ensures (ok, disk.files) == PatchFileSpec(st, env, old(disk.files), file)
  {
    var p := QtPath(st, env, file);
    if !(p in disk.files && disk.files[p].readable) {
      return false;
    }
    var toWrite := RewriteLines(st, env, LinesOf(disk.files[p]));
    disk.files := Write(disk.files, p, toWrite).1;
    ok := true;
  }

  /** shouldPatch's test on one QMAKE_PRL_LIBS entry, the unreachable build-tree branch included. */
  method TokenTriggers(st: Settings, env: Env, n: string) returns (b: bool)
    ensures b == TokenTriggersAsWritten(st, env, n)
  {
    b := false;
    var afterEq, afterL := Mid(n, 3), Mid(n, 2);
    if StartsWith(n, "-L=") {
      b := La.InOldLib(st, env, afterEq);
    } else if StartsWith(n, "-L") {
      b := La.InOldLib(st, env, afterL);
    } else if !StartsWith(n, "-l") {
      b := La.FileInOldLib(st, env, n);
    } else if Major(st) == 4 && st.buildDir != "" {
      if StartsWith(n, "-L=") {
        b := InBuildLib(st, env, afterEq);
      } else if StartsWith(n, "-L") {
        b := InBuildLib(st, env, afterL);
      } else if !StartsWith(n, "-l") {
        b := FileInBuildLib(st, env, n);
      }
    }
  }

  /** shouldPatch's loop over the QMAKE_PRL_LIBS entries, returning at the first that names the old lib directory. */
  method AnyTokenTriggers(st: Settings, env: Env, toks: seq<string>) returns (b: bool)
    ensures b == La.AnyOldToken(st, env, toks)
  {
    for i := 0 to |toks|
      invariant forall k :: 0 <= k < i ==> !La.IsOld(st, env)(toks[k])
    {
      var hit := TokenTriggers(st, env, toks[i]);
      BuildBranchDead(st, env, toks[i]);
      if hit {
        return true;
      }
      NoTriggerYet(toks, La.IsOld(st, env), i);
    }
    return false;
  }

  /**
   * The patcher object: shouldPatch and findFileToPatch are const members
   * that still update qt4NoBuildDirWarn, so that the missing build
   * directory is reported once per patcher. emitted holds the warnings
   * this patcher has logged.
   */
  class PrlPatcher {
    var qt4NoBuildDirWarn: bool
    var emitted: seq<Warning>

    /** The warning has been logged exactly when the flag is set, and then once. */
    predicate Valid()
      reads this
    {
      emitted == if qt4NoBuildDirWarn then [Qt4NoBuildDir] else []
    }

    constructor ()
      ensures Valid() && !qt4NoBuildDirWarn
    {
      qt4NoBuildDirWarn := false;
      emitted := [];
    }

    /** Log the missing build directory warning unless it has been logged already. */
    method WarnNoBuildDir()
      requires Valid()
      modifies this
      ensures Valid() && qt4NoBuildDirWarn
    {
      if !qt4NoBuildDirWarn {
        qt4NoBuildDirWarn := true;
        emitted := emitted + [Qt4NoBuildDir];
      }
    }

    /** The body of shouldPatch's line loop, for a line that assigns value to key. */
    method AssignedLineTriggers(st: Settings, env: Env, key: string, value: string) returns (b: bool)
      requires Valid()
      modifies this
      ensures Valid()
      ensures b == AssignedTriggers(st, env, key, value)
      ensures qt4NoBuildDirWarn == (old(qt4NoBuildDirWarn) || AssignedWarns(st, env, key, value))
    {
      if key == LibsKey {
        b := AnyTokenTriggers(st, env, SplitSkipEmpty(value, ' '));
        return;
      }
      if key == BuildDirKey && Major(st) == 4 {
        if !Contains(RelativeFilePath(env, st.oldDir, value), "..") {
          return true;
        } else if st.buildDir != "" {
          return !Contains(RelativeFilePath(env, st.buildDir, value), "..");
        } else {
          WarnNoBuildDir();
        }
      }
      return false;
    }

    /** The body of shouldPatch's line loop. */
    method LineTriggers(st: Settings, env: Env, l: string) returns (b: bool)
      requires Valid()
      modifies this
      ensures Valid()
      ensures b == PrlTrigger(st, env, l)
      ensures qt4NoBuildDirWarn == (old(qt4NoBuildDirWarn) || PrlWarns(st, env, l))
    {
      var equalMark := IndexOfChar(l, '=');
      if equalMark == -1 {
        return false;
      }
      var key := Trim(l[..equalMark]);
      var value := Trim(l[equalMark + 1..]);
      AssignmentAt(l, equalMark);
      b := AssignedLineTriggers(st, env, key, value);
    }

    /** shouldPatch's loop over the lines of the file, returning at the first that triggers. */
    method AnyLineTriggers(st: Settings, env: Env, lines: seq<string>) returns (b: bool)
      requires Valid()
      modifies this
      ensures Valid()
      ensures b == SomeLine(lines, Trigger(st, env))
      ensures qt4NoBuildDirWarn == (old(qt4NoBuildDirWarn) || HitBeforeStop(lines, Warns(st, env), Trigger(st, env)))
    {
      ghost var warned := qt4NoBuildDirWarn;
      var i := 0;
      while i < |lines|
        invariant 0 <= i <= |lines| && Valid()
        invariant forall k :: 0 <= k < i ==> !Trigger(st, env)(lines[k])
        invariant qt4NoBuildDirWarn == (warned || exists k :: 0 <= k < i && Warns(st, env)(lines[k]))
      {
        ghost var before := qt4NoBuildDirWarn;
        var hit := LineTriggers(st, env, lines[i]);
        if hit {
          ScanEnds(lines, Warns(st, env), Trigger(st, env), i);
          NotBoth(st, env, lines[i]);
          return true;
        }
        HitStep(lines, Warns(st, env), i);
        NoTriggerYet(lines, Trigger(st, env), i);
        i := i + 1;
      }
      ScanEnds(lines, Warns(st, env), Trigger(st, env), i);
      return false;
    }

    /** PrlPatcher::shouldPatch. */
    method ShouldPatch(st: Settings, env: Env, fs: FS, name: string) returns (b: bool)
      requires Valid()
      modifies this
      ensures Valid()
      ensures b == ShouldPatchSpec(st, env, fs, name)
      ensures qt4NoBuildDirWarn == (old(qt4NoBuildDirWarn) || WarnsSpec(st, env, fs, name))
    {
      if !QtHasDir(st, env, "lib") {
        return false;
      }
      var p := La.LibPath(st, env, name);
      if !(p in fs && fs[p].readable) {
        return false;
      }
      b := AnyLineTriggers(st, env, LinesOf(fs[p]));
    }

    /** findFileToPatch's loop over the names listed in lib. */
    method SelectNames(st: Settings, env: Env, fs: FS, names: seq<string>) returns (r: seq<string>)
      requires Valid()
      modifies this
      ensures Valid()
      ensures r == Select(names, Keep(st, env, fs), LibRel)
      ensures qt4NoBuildDirWarn == (old(qt4NoBuildDirWarn) || WarnsSome(st, env, fs, names))
    {
      ghost var warned := qt4NoBuildDirWarn;
      r := [];
      var i := 0;
      while i < |names|
        invariant 0 <= i <= |names| && Valid()
        invariant r == Select(names[..i], Keep(st, env, fs), LibRel)
        invariant qt4NoBuildDirWarn == (warned || WarnsSome(st, env, fs, names[..i]))
      {
        var selected := ShouldPatch(st, env, fs, names[i]);
        KeepStep(st, env, fs, names, i);
        WarnsSomeStep(st, env, fs, names, i);
        if selected {
          r := r + [LibRel + names[i]];
        }
        i := i + 1;
      }
      assert names[..i] == names;
    }

    /** PrlPatcher::findFileToPatch: every .prl file in lib that shouldPatch selects. */
    method FindFileToPatch(st: Settings, env: Env, fs: FS) returns (r: seq<string>)
      requires Valid()
      modifies this
      ensures Valid()
      ensures r == FindSpec(st, env, fs)
      ensures qt4NoBuildDirWarn == (old(qt4NoBuildDirWarn) || FindWarns(st, env, fs))
    {
      if !QtHasDir(st, env, "lib") {
        return [];
      }
      r := SelectNames(st, env, fs, Listing(st, env, "lib", Filters));
    }
  }

  /** No line both stops shouldPatch and makes it warn. */
  lemma NotBoth(st: Settings, env: Env, l: string)
    requires PrlTrigger(st, env, l)
    ensures !PrlWarns(st, env, l)
  {
  }

  /**
   * The build-tree branch of shouldPatch's entry test is entered only for
   * entries starting with "-l", where none of its three tests can hold: an
   * entry triggers exactly when it names the old lib directory.
   */
  lemma BuildBranchDead(st: Settings, env: Env, n: string)
    ensures TokenTriggersAsWritten(st, env, n) == La.OldToken(st, env, n)
  {
    if StartsWith(n, "-l") {
      DiffersAt(n, "-L=", 1);
      DiffersAt(n, "-L", 1);
    }
  }

  /** The entry names the build tree's lib directory, by search path or by file. */
  predicate BuildToken(st: Settings, env: Env, n: string)
  {
    if StartsWith(n, "-L=") then InBuildLib(st, env, n[3..])
    else if StartsWith(n, "-L") then InBuildLib(st, env, n[2..])
    else !StartsWith(n, "-l") && FileInBuildLib(st, env, n)
  }

  /**
   * "-l" entries are kept, and an entry changes only when it names the old
   * lib directory, or, for a Qt 4 build with a build directory, the build
   * tree's lib directory.
   */
  lemma TokenChanges(st: Settings, env: Env, n: string)
    ensures StartsWith(n, "-l") ==> PrlToken(st, env, n) == n
    ensures PrlToken(st, env, n) != n ==> La.OldToken(st, env, n) || (Qt4Build(st) && BuildToken(st, env, n))
  {
    if StartsWith(n, "-l") {
      DiffersAt(n, "-L=", 1);
      DiffersAt(n, "-L", 1);
      assert PrlToken(st, env, n) == n;
    } else if StartsWith(n, "-L=") {
      assert PrlToken(st, env, n) != n ==> MovedSearch(st, env, n[3..]);
    } else if StartsWith(n, "-L") {
      assert PrlToken(st, env, n) != n ==> MovedSearch(st, env, n[2..]);
    }
  }

  /** Escaping, then reading back with doubled backslashes undone, gives the moved file in Qt's internal form. */
  lemma NativeReadsBack(st: Settings, env: Env, n: string)
    ensures FromNative(env, Unescape(NativeEntry(st, env, n))) == FromNative(env, NewLibFile(st, env, n))
  {
    UnescapeEscape(ToNative(env, NewLibFile(st, env, n)));
    FromToNative(env, NewLibFile(st, env, n));
  }

  /** Two paths with the same internal form have the same file name and the same directory. */
  lemma SameInternal(env: Env, p: string, q: string)
    requires FromNative(env, p) == FromNative(env, q)
    ensures FileName(env, p) == FileName(env, q) && AbsDir(env, p) == AbsDir(env, q)
  {
  }

  /**
   * A moved file entry, read back as shouldPatch reads entries, names the
   * same file in the new lib directory, with forward slashes and with
   * native separators alike.
   */
  lemma MovedEntryRelocates(st: Settings, env: Env, n: string)
    requires La.Ready(st, env) && La.Plain(env, n)
    ensures FileName(env, Unescape(MovedEntry(st, env, n))) == FileName(env, Unescape(n))
    ensures !IsAbsolute(FileName(env, Unescape(n))) ==> AbsDir(env, Unescape(MovedEntry(st, env, n))) == La.NewLib(st, env)
  {
    var moved := La.MovedFile(st, env, n);
    La.MovedFileRelocates(st, env, n);
    La.EntryName(env, n);
    La.JoinedName(st, env, FileName(env, Unescape(n)));
    FromNativeTwice(env, NewLibFile(st, env, n));
    if Major(st) == 5 {
      UnescapePlain(moved);
    } else {
      NativeReadsBack(st, env, n);
      SameInternal(env, Unescape(NativeEntry(st, env, n)), moved);
    }
  }

  /** A native moved entry is one non-empty word. */
  lemma NativeEntryWord(st: Settings, env: Env, n: string)
    requires La.Ready(st, env) && La.Plain(env, n) && ' ' !in n
    ensures NativeEntry(st, env, n) != [] && ' ' !in NativeEntry(st, env, n)
  {
    var x := NewLibFile(st, env, n);
    La.MovedFileWord(st, env, n);
    if ' ' in x {
      FromNativeKeeps(env, x, ' ');
    }
  }

  /** An entry is kept, or becomes a search path for the new lib directory, or a moved file entry. */
  lemma TokenCases(st: Settings, env: Env, n: string)
    ensures var r := PrlToken(st, env, n);
      r == n || r == "-L=" + FromNative(env, La.NewLib(st, env)) || r == "-L" + FromNative(env, La.NewLib(st, env))
      || r == MovedEntry(st, env, n) || r == NativeEntry(st, env, n)
  {
    if StartsWith(n, "-L=") || StartsWith(n, "-L") || StartsWith(n, "-l") {
    } else if AbsoluteEntry(env, n) && La.FileInOldLib(st, env, n) {
      assert PrlToken(st, env, n) == MovedEntry(st, env, n);
    } else if Qt4Build(st) && AbsoluteEntry(env, n) && FileInBuildLib(st, env, n) {
      assert PrlToken(st, env, n) == NativeEntry(st, env, n);
    } else {
      assert PrlToken(st, env, n) == n;
    }
  }

  /** For Qt 5 a moved file entry is the libtool patcher's moved file; otherwise it is the native entry. */
  lemma MovedEntryCases(st: Settings, env: Env, n: string)
    ensures MovedEntry(st, env, n) == if Major(st) == 5 then La.MovedFile(st, env, n) else NativeEntry(st, env, n)
  {
  }

  /** Every patched entry of a plain, space-free entry is one non-empty word. */
  lemma TokenWord(st: Settings, env: Env, n: string)
    requires La.Ready(st, env) && La.Plain(env, n) && n != [] && ' ' !in n
    ensures PrlToken(st, env, n) != [] && ' ' !in PrlToken(st, env, n)
  {
    La.NewLibIs(st, env);
    assert FromNative(env, La.NewLib(st, env)) == La.NewLibPath(st);
    La.SearchWord(st, env, "-L=");
    La.SearchWord(st, env, "-L");
    La.MovedFileWord(st, env, n);
    NativeEntryWord(st, env, n);
    MovedEntryCases(st, env, n);
    TokenCases(st, env, n);
  }

  /**
   * patchQmakePrlLibs keeps the entries, their number and their order: the
   * value it writes splits back into the patched entries one for one.
   */
  lemma LibsReadBack(st: Settings, env: Env, value: string)
    requires La.Ready(st, env)
    requires forall k :: 0 <= k < |SplitSkipEmpty(value, ' ')| ==> La.Plain(env, SplitSkipEmpty(value, ' ')[k])
    ensures SplitSkipEmpty(PatchLibs(st, env, value), ' ') == MapTokens(st, env, SplitSkipEmpty(value, ' '))
    ensures |SplitSkipEmpty(PatchLibs(st, env, value), ' ')| == |SplitSkipEmpty(value, ' ')|
  {
    var toks := SplitSkipEmpty(value, ' ');
    var out := MapTokens(st, env, toks);
    forall k | 0 <= k < |out|
      ensures out[k] != [] && ' ' !in out[k]
    {
      TokenWord(st, env, toks[k]);
    }
    SplitSkipEmptyJoin(out, ' ');
  }

  /**
   * As written, a Qt 4 "-L=" entry naming only the build tree's lib
   * directory is moved by patchFile, but shouldPatch does not stop at it.
   */
  lemma BuildSearchNotSelected(st: Settings, env: Env, p: string)
    requires Qt4Build(st) && InBuildLib(st, env, p) && !La.InOldLib(st, env, p)
    ensures PrlToken(st, env, "-L=" + p) == "-L=" + FromNative(env, La.NewLib(st, env))
    ensures !TokenTriggersAsWritten(st, env, "-L=" + p)
  {
    StartsWithConcat("-L=", p);
    BuildBranchDead(st, env, "-L=" + p);
  }

  /**
   * As written, shouldPatch stops at a relative file entry whose directory
   * is the old lib directory, but patchFile moves only absolute entries:
   * the entry is written back as it was.
   */
  lemma RelativeEntryKept(st: Settings, env: Env, n: string)
    requires !StartsWith(n, "-L") && !StartsWith(n, "-l")
    requires !AbsoluteEntry(env, n) && La.FileInOldLib(st, env, n)
    ensures TokenTriggersAsWritten(st, env, n) && La.OldToken(st, env, n)
    ensures PrlToken(st, env, n) == n
  {
    NotStartsWithLonger(n, "-L", "=");
    assert "-L" + "=" == "-L=";
  }

  /**
   * So the .prl patcher is not idempotent: a QMAKE_PRL_LIBS value holding
   * such an entry still makes shouldPatch stop after it has been rewritten,
   * and the file is selected again on the next run.
   */
  lemma RelativeEntryStillSelected(st: Settings, env: Env, value: string, i: int)
    requires La.Ready(st, env)
    requires forall k :: 0 <= k < |SplitSkipEmpty(value, ' ')| ==> La.Plain(env, SplitSkipEmpty(value, ' ')[k])
    requires 0 <= i < |SplitSkipEmpty(value, ' ')|
    requires !StartsWith(SplitSkipEmpty(value, ' ')[i], "-L") && !StartsWith(SplitSkipEmpty(value, ' ')[i], "-l")
    requires !AbsoluteEntry(env, SplitSkipEmpty(value, ' ')[i]) && La.FileInOldLib(st, env, SplitSkipEmpty(value, ' ')[i])
    ensures AssignedTriggers(st, env, LibsKey, value)
    ensures AssignedTriggers(st, env, LibsKey, PatchLibs(st, env, value))
  {
    var toks := SplitSkipEmpty(value, ' ');
    RelativeEntryKept(st, env, toks[i]);
    LibsReadBack(st, env, value);
    var out := SplitSkipEmpty(PatchLibs(st, env, value), ' ');
    assert out[i] == PrlToken(st, env, toks[i]) == toks[i];
    assert La.OldToken(st, env, out[i]);
  }

  /** A QMAKE_PRL_BUILD_DIR value stops shouldPatch exactly when patchFile rewrites it. */
  lemma BuildDirSelectedIffMoved(st: Settings, env: Env, value: string)
    ensures BuildDirTriggers(st, env, value) <==> BuildDirMoves(st, env, value)
    ensures BuildDirWarns(st, env, value) ==> !BuildDirTriggers(st, env, value)
  {
  }

  /**
   * A Qt 4 build directory under the old prefix is selected and moved to
   * the same relative place under the new prefix.
   */
  lemma BuildDirInsideOld(st: Settings, env: Env, value: string, rest: seq<string>)
    requires Major(st) == 4
    requires IsAbsolute(CleanPath(env, AbsPath(env, st.oldDir))) && IsAbsolute(CleanPath(env, value))
    requires Components(CleanPath(env, value)) == Components(CleanPath(env, AbsPath(env, st.oldDir))) + rest
    requires NoDotDot(rest)
    ensures BuildDirTriggers(st, env, value) && BuildDirMoves(st, env, value)
    ensures MovedBuildDir(st, env, value)
      == FromNative(env, CleanPath(env, AbsPath(env, st.newDir) + "/" + (if rest == [] then "." else Join(rest, '/'))))
  {
    RelativeInside(env, st.oldDir, value, rest);
  }

  /**
   * A Qt 4 build directory outside the old prefix, with no build directory
   * configured, is neither selected nor moved, and shouldPatch warns there.
   */
  lemma BuildDirOutsideOld(st: Settings, env: Env, value: string)
    requires Major(st) == 4 && st.buildDir == ""
    requires IsAbsolute(CleanPath(env, AbsPath(env, st.oldDir))) && IsAbsolute(CleanPath(env, value))
    requires !(Components(CleanPath(env, AbsPath(env, st.oldDir))) <= Components(CleanPath(env, value)))
    ensures !BuildDirTriggers(st, env, value) && !BuildDirMoves(st, env, value) && BuildDirWarns(st, env, value)
  {
    RelativeOutside(env, st.oldDir, value);
  }
}
