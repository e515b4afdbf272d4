/**
 * The qmake.conf patcher (QMakeConfPatcher). A Qt 4 installation built
 * elsewhere carries a mkspecs/default/qmake.conf that points at the build
 * machine (QTBUG-27593); the patcher replaces the whole file by a short
 * template that names the cross mkspec under the new location and
 * includes that mkspec's own qmake.conf.
 */
module QmakeConf {
  import opened Text
  import opened Paths
  import opened Files
  import opened Settings
  import opened QtDir
  import opened TextFile

  const ConfRel := "mkspecs/default/qmake.conf"
  const OriginKey := "QMAKESPEC_ORIGINAL="
  const SpecsDir := "/mkspecs/"
  const IncludeHead := "include(../"
  const IncludeTail := "/qmake.conf)"

  /** The fixed parts of the template's first line fit in a line. */
  lemma OriginParts()
    ensures LineSafe(OriginKey) && LineSafe(SpecsDir)
  {
  }

  /** The fixed parts of the template's include line fit in a line. */
  lemma IncludeParts()
    ensures LineSafe(IncludeHead) && LineSafe(IncludeTail)
  {
  }

  /** The file name is a relative path with forward slashes. */
  lemma ConfRelRelative()
    ensures !IsAbsolute(ConfRel) && !NamesCwd(ConfRel) && '\\' !in ConfRel
  {
    assert ConfRel[0] == 'm' && ConfRel[1] == 'k';
  }

  /** QMakeConfPatcher::findFileToPatch: only for Qt 4, and only when the file is there. */
  function FindFileToPatch(st: Settings, env: Env, fs: FS): (r: seq<string>)
    ensures r != [] <==> Major(st) == 4 && QtExists(st, env, fs, ConfRel)
    ensures forall x :: x in r ==> x == ConfRel
    ensures |r| <= 1
  {
    if Major(st) != 4 then []
    else if QtExists(st, env, fs, ConfRel) then [ConfRel]
    else []
  }

  /** The first line of the template: the mkspec the installation was configured with, under the new location. */
  function OriginLine(st: Settings): string
  {
    OriginKey + st.newDir + SpecsDir + st.crossSpec + "\n"
  }

  /** The last line of the template: the mkspec's own qmake.conf, next to mkspecs/default. */
  function IncludeLine(st: Settings): string
  {
    IncludeHead + st.crossSpec + IncludeTail + "\n"
  }

  /** The three lines patchFile writes, the middle one empty. */
  function TemplateLines(st: Settings): seq<string>
  {
    [OriginLine(st), "\n", IncludeLine(st)]
  }

  /** The text patchFile writes. */
  function Template(st: Settings): string
  {
    OriginLine(st) + "\n" + IncludeLine(st)
  }

  /**
   * QMakeConfPatcher::patchFile, writing the file under the Qt directory.
   * The whole content is replaced; the result is true whatever the write
   * did, and no other file changes.
   */
  function PatchFileSpec(st: Settings, env: Env, fs: FS, file: string): (r: (bool, FS))
    ensures r.0
    ensures forall k :: k != QtPath(st, env, file) ==> (k in r.1 <==> k in fs)
    ensures forall k :: k != QtPath(st, env, file) && k in fs ==> r.1[k] == fs[k]
    ensures QtPath(st, env, file) !in fs || fs[QtPath(st, env, file)].writable
      ==> QtPath(st, env, file) in r.1 && r.1[QtPath(st, env, file)].data == Encode(Template(st))
  {
    (true, Write(fs, QtPath(st, env, file), Encode(Template(st))).1)
  }

  /**
   * QMakeConfPatcher::patchFile as written: QFile is opened on the path it
   * is given, which is relative to the Qt directory, so the file written is
   * the one under the current directory (the application's directory,
   * which main makes current). The open fails, and nothing is written,
   * when that file's directory does not exist or the file is read-only;
   * the result is true either way.
   */
  function PatchFileSpecAsWritten(st: Settings, env: Env, fs: FS, file: string): (r: (bool, FS))
    ensures r.0
    ensures forall k :: k != AbsPath(env, file) ==> (k in r.1 <==> k in fs)
    ensures forall k :: k != AbsPath(env, file) && k in fs ==> r.1[k] == fs[k]
    ensures AbsDir(env, file) !in env.dirs ==> r.1 == fs
    ensures AbsDir(env, file) in env.dirs && (AbsPath(env, file) !in fs || fs[AbsPath(env, file)].writable)
      ==> AbsPath(env, file) in r.1 && r.1[AbsPath(env, file)].data == Encode(Template(st))
  {
    if AbsDir(env, file) !in env.dirs then (true, fs)
    else (true, Write(fs, AbsPath(env, file), Encode(Template(st))).1)
  }

  method PatchFile(st: Settings, env: Env, disk: Disk, file: string) returns (ok: bool)
    modifies disk
    ensures (ok, disk.files) == PatchFileSpec(st, env, old(disk.files), file)
  {
    var (_, fs) := Write(disk.files, QtPath(st, env, file), Encode(Template(st)));
    disk.files := fs;
    ok := true;
  }

  method PatchFileAsWritten(st: Settings, env: Env, disk: Disk, file: string) returns (ok: bool)
    modifies disk
    ensures (ok, disk.files) == PatchFileSpecAsWritten(st, env, old(disk.files), file)
  {
    if AbsDir(env, file) in env.dirs {
      var (_, fs) := Write(disk.files, AbsPath(env, file), Encode(Template(st)));
      disk.files := fs;
    }
    ok := true;
  }

  /** A text that fits in a line, with its newline, is one well-formed line. */
  lemma NewlineEnded(body: string)
    requires LineSafe(body)
    ensures IsLine(body + "\n") && EndsWithNewline(body + "\n") && Latin1(body + "\n")
  {
    assert (body + "\n")[..|body|] == body;
  }

  /** The template is three well-formed lines of one-byte characters when its two settings fit in a line. */
  lemma TemplateIsLines(st: Settings)
    requires LineSafe(st.newDir) && LineSafe(st.crossSpec)
    ensures Concat(TemplateLines(st)) == Template(st)
    ensures forall k :: 0 <= k < 3 ==> IsLine(TemplateLines(st)[k]) && EndsWithNewline(TemplateLines(st)[k])
    ensures Latin1(Template(st))
  {
    OriginParts();
    IncludeParts();
    var o := OriginKey + st.newDir + SpecsDir + st.crossSpec;
    var i := IncludeHead + st.crossSpec + IncludeTail;
    LineSafeConcat(OriginKey, st.newDir);
    LineSafeConcat(OriginKey + st.newDir, SpecsDir);
    LineSafeConcat(OriginKey + st.newDir + SpecsDir, st.crossSpec);
    LineSafeConcat(IncludeHead, st.crossSpec);
    LineSafeConcat(IncludeHead + st.crossSpec, IncludeTail);
    NewlineEnded(o);
    NewlineEnded(i);
    NewlineEnded("");
    ThreeLines(o + "\n", "\n", i + "\n");
  }

  lemma ThreeLines(a: string, b: string, c: string)
    ensures Concat([a, b, c]) == a + b + c
  {
    assert [a, b, c][1..] == [b, c];
    assert [b, c][1..] == [c];
    assert Concat([c]) == c;
    assert Concat([b, c]) == b + c;
  }

  /**
   * After the corrected patch, the file under the Qt directory reads back
   * as exactly the three template lines, whatever it held before.
   */
  lemma PatchedReadsBack(st: Settings, env: Env, fs: FS, file: string)
    requires LineSafe(st.newDir) && LineSafe(st.crossSpec)
    requires QtPath(st, env, file) !in fs || fs[QtPath(st, env, file)].writable
    ensures LinesOf(PatchFileSpec(st, env, fs, file).1[QtPath(st, env, file)]) == TemplateLines(st)
  {
    TemplateIsLines(st);
    DecodeEncode(Template(st));
    SplitLinesConcat(TemplateLines(st));
  }

  /**
   * As written, when the current directory is not the Qt directory, the
   * qmake.conf under the Qt directory keeps its old content.
   */
  lemma AsWrittenMissesQtDir(st: Settings, env: Env, fs: FS, file: string)
    requires AbsPath(env, file) != QtPath(st, env, file) && QtPath(st, env, file) in fs
    ensures PatchFileSpecAsWritten(st, env, fs, file).1[QtPath(st, env, file)] == fs[QtPath(st, env, file)]
  {
  }

  /**
   * A relative file name resolves to different paths under two different
   * directories. The current directory is clean, as QDir::currentPath()
   * returns it; the two directories differ also once a separator is
   * appended, which leaves out only a bare drive "X:" against its root "X:/".
   */
  lemma DifferentDirs(st: Settings, env: Env, file: string)
    requires !IsAbsolute(FromNative(env, file)) && !NamesCwd(FromNative(env, file))
    requires |env.cwd| > 0 && IsClean(env, env.cwd)
    requires JoinDir(env.cwd, "") != JoinDir(AbsPath(env, st.qtDir), "")
    ensures AbsPath(env, file) != QtPath(st, env, file)
  {
    var q := FromNative(env, file);
    var a, b := env.cwd, AbsPath(env, st.qtDir);
    assert AbsPath(env, file) == CleanSlashes(env, a + "/" + q);
    assert QtPath(st, env, file) == JoinDir(b, q);
    assert |q| > 0 && q[0] != '/';
    if IsClean(env, q) {
      assert q[|q| - 1] != '/' by {
        assert !TrailingSlash(env, q);
        assert !IsRoot(env, q);
      }
      CleanJoin(env, a, q);
      JoinDirsDiffer(a, b, q);
    } else {
      JoinDirUnclean(env, b, q);
    }
  }

  /** An application in /app patching a Qt in /opt/qt writes under /app, not under /opt/qt. */
  lemma AsWrittenWritesElsewhere(st: Settings, env: Env)
    requires env.platform == Unix && env.cwd == "/app" && st.qtDir == "/opt/qt"
    ensures AbsPath(env, ConfRel) != QtPath(st, env, ConfRel)
  {
    ConfRelRelative();
    assert IsAbsolute(st.qtDir) && IsClean(env, st.qtDir);
    CleanFixed(env, st.qtDir);
    assert IsClean(env, env.cwd);
    DifferentDirs(st, env, ConfRel);
  }
}
