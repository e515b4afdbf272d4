/**
 * The pkg-config patcher (PcPatcher). The .pc files under lib/pkgconfig
 * record the installation prefix; for Qt 5 the patcher points prefix= at the
 * new location and makes libdir= and includedir= relative to ${prefix}; for
 * Qt 4 it writes the new location into prefix=, libdir=, includedir= and the
 * five tool locations.
 */
module Pc {
  import opened Wrappers
  import opened Text
  import opened Paths
  import opened Files
  import opened Settings
  import opened QtDir
  import opened TextFile

  const PkgRel := "lib/pkgconfig/"
  const Qt5Filters: seq<string> := ["Qt5*.pc", "Enginio.pc"]
  const Qt4Filters: seq<string> := ["Qt*.pc", "phonon.pc"]
  const Qt4Tools: seq<string> := ["moc", "uic", "rcc", "lupdate", "lrelease"]

  const PrefixKey := "prefix="
  const LibDirKey := "libdir="
  const IncludeDirKey := "includedir="
  const LocationSuffix := "_location="
  const Qt5LibValue := "${prefix}/lib"
  const Qt5IncludeValue := "${prefix}/include"
  const LibTail := "/lib"
  const IncludeTail := "/include/"
  const BinTail := "/bin/"

  /** The keys patchFile writes fit in a line and are told apart by their first character. */
  lemma KeysPlain()
    ensures |PrefixKey| == 7 && PrefixKey[0] == 'p'
    ensures |LibDirKey| > 0 && LibDirKey[0] == 'l' && |IncludeDirKey| > 0 && IncludeDirKey[0] == 'i'
    ensures LineSafe(PrefixKey) && LineSafe(LibDirKey) && LineSafe(IncludeDirKey) && LineSafe(LocationSuffix)
  {
    assert Printable(PrefixKey) && Printable(LibDirKey) && Printable(IncludeDirKey) && Printable(LocationSuffix);
    PrintableLineSafe(PrefixKey);
    PrintableLineSafe(LibDirKey);
    PrintableLineSafe(IncludeDirKey);
    PrintableLineSafe(LocationSuffix);
  }

  /** The fixed values a Qt 5 file gets fit in a line. */
  lemma ValuesPlain()
    ensures LineSafe(Qt5LibValue) && LineSafe(Qt5IncludeValue)
  {
    assert Printable(Qt5LibValue) && Printable(Qt5IncludeValue);
    PrintableLineSafe(Qt5LibValue);
    PrintableLineSafe(Qt5IncludeValue);
  }

  /** The tails a Qt 4 file's locations get fit in a line. */
  lemma TailsPlain()
    ensures LineSafe(LibTail) && LineSafe(IncludeTail) && LineSafe(BinTail)
  {
    assert Printable(LibTail) && Printable(IncludeTail) && Printable(BinTail);
    PrintableLineSafe(LibTail);
    PrintableLineSafe(IncludeTail);
    PrintableLineSafe(BinTail);
  }

  /** PcPatcher::isQt4File: the file name does not start with "Qt5". */
  predicate IsQt4File(env: Env, name: string)
  {
    !StartsWith(FileName(env, name), "Qt5")
  }

  const LibName := "lib"
  const PkgName := "pkgconfig"

  /** QDir(qtDir) after cd("lib") and cd("pkgconfig"). */
  function PkgDir(st: Settings, env: Env): string
  {
    AbsFilePath(env, QtPath(st, env, LibName), PkgName)
  }

  /** Both cd calls succeed. */
  predicate HasPkgDir(st: Settings, env: Env)
  {
    QtHasDir(st, env, LibName) && PkgDir(st, env) in env.dirs
  }

  /** Going down into lib and then pkgconfig reaches lib/pkgconfig under qtDir. */
  lemma PkgDirIs(st: Settings, env: Env)
    requires ValidEnv(env)
    ensures PkgDir(st, env) == QtPath(st, env, PkgSubDir)
  {
    PkgSub();
    assert FromNative(env, PkgName) == PkgName;
    AbsFilePathNested(env, st.qtDir, LibName, PkgName);
  }

  /** A name resolved in lib/pkgconfig is the path patchFile opens for that name with the prefix lib/pkgconfig/. */
  lemma PkgPath(st: Settings, env: Env, name: string)
    requires ValidEnv(env) && !IsAbsolute(FromNative(env, name))
    ensures AbsFilePath(env, PkgDir(st, env), name) == QtPath(st, env, PkgRel + name)
  {
    PkgDirIs(st, env);
    PkgSub();
    AbsFilePathNested(env, st.qtDir, PkgSubDir, name);
    assert PkgRel + name == PkgSubDir + "/" + name;
  }

  const PkgSubDir := "lib/pkgconfig"

  /** lib/pkgconfig is a relative directory in Qt's internal form, and the prefix is it with a trailing slash. */
  lemma PkgSub()
    ensures |PkgSubDir| > 0 && !IsAbsolute(PkgSubDir) && '\\' !in PkgSubDir
    ensures PkgRel == PkgSubDir + "/"
    ensures |LibName| > 0 && !IsAbsolute(LibName) && '\\' !in LibName
    ensures !IsAbsolute(PkgName) && '\\' !in PkgName
    ensures PkgSubDir == LibName + "/" + PkgName
    ensures NoDoubleSlash(PkgSubDir) && PkgSubDir[0] != '/' && PkgSubDir[|PkgSubDir| - 1] != '/'
    ensures NoDoubleSlash(LibName) && LibName[0] != '/' && LibName[|LibName| - 1] != '/'
  {
  }

  /** The location a line assigns to prefix=, with doubled backslashes undone; None for any other line. */
  function PrefixPath(l: string): Option<string>
  {
    var t := Trim(l);
    if StartsWith(t, PrefixKey) then Some(Unescape(Trim(t[7..]))) else None
  }

  /** The line shouldPatch stops at: a prefix= line naming the old location. */
  predicate PcTrigger(st: Settings, env: Env, l: string)
  {
    PrefixPath(l).Some? && SamePath(env, PrefixPath(l).value, st.oldDir)
  }

  function Trigger(st: Settings, env: Env): string -> bool
  {
    l => PcTrigger(st, env, l)
  }

  /** The key of a Qt 4 tool location. */
  function ToolKey(tool: string): string
  {
    tool + LocationSuffix
  }

  /** The first tool whose key starts t, or -1. */
  function ToolIndex(tools: seq<string>, t: string): (k: int)
    ensures -1 <= k < |tools|
    ensures k >= 0 ==> StartsWith(t, ToolKey(tools[k]))
    ensures forall j :: 0 <= j < |tools| && (k == -1 || j < k) ==> !StartsWith(t, ToolKey(tools[j]))
  {
    if |tools| == 0 then -1
    else if StartsWith(t, ToolKey(tools[0])) then 0
    else
      var k := ToolIndex(tools[1..], t);
      if k == -1 then -1 else k + 1
  }

  /** The key and the new value a Qt 5 file gets for a line whose trimmed text is t. */
  function Qt5Assigned(env: Env, newAbs: string, t: string): (r: Option<(string, string)>)
    ensures r.Some? ==> StartsWith(t, r.value.0)
  {
    if StartsWith(t, PrefixKey) then Some((PrefixKey, Escape(ToNative(env, newAbs))))
    else if StartsWith(t, LibDirKey) then Some((LibDirKey, Qt5LibValue))
    else if StartsWith(t, IncludeDirKey) then Some((IncludeDirKey, Qt5IncludeValue))
    else None
  }

  /** The key and the new value a Qt 4 file whose base name is base gets for a line whose trimmed text is t. */
  function Qt4Assigned(env: Env, newAbs: string, base: string, t: string): (r: Option<(string, string)>)
    ensures r.Some? ==> StartsWith(t, r.value.0)
  {
    if StartsWith(t, PrefixKey) then Some((PrefixKey, ToNative(env, newAbs)))
    else if StartsWith(t, LibDirKey) then Some((LibDirKey, FromNative(env, newAbs + LibTail)))
    else if StartsWith(t, IncludeDirKey) then Some((IncludeDirKey, FromNative(env, newAbs + IncludeTail + base)))
    else
      var k := ToolIndex(Qt4Tools, t);
      if k >= 0 then Some((ToolKey(Qt4Tools[k]), FromNative(env, newAbs + BinTail + Qt4Tools[k])))
      else None
  }

  /**
   * The key and the new value patchFile writes in place of a line whose
   * trimmed text is t, in the file at path; None when the line is written
   * back as it was read. Only Qt 5 and Qt 4 files are rewritten, and a
   * rewritten line keeps the key it had.
   */
  function Assigned(st: Settings, env: Env, path: string, t: string): (r: Option<(string, string)>)
    ensures r.Some? ==> StartsWith(t, r.value.0)
    ensures Major(st) != 4 && Major(st) != 5 ==> r.None?
  {
    var newAbs := AbsPath(env, st.newDir);
    if Major(st) == 5 then Qt5Assigned(env, newAbs, t)
    else if Major(st) == 4 then Qt4Assigned(env, newAbs, BaseName(env, path), t)
    else None
  }

  /** The line patchFile writes for one line it reads from the file at path. */
  function PcLine(st: Settings, env: Env, path: string, l: string): string
  {
    match Assigned(st, env, path, Trim(l))
    case None => l
    case Some((key, value)) => key + value + "\n"
  }

  function Rewrite(st: Settings, env: Env, path: string): string -> string
  {
    l => PcLine(st, env, path, l)
  }

  /** The five tool names are plain one-line words that do not start with 'p'. */
  lemma ToolsPlain(j: int)
    requires 0 <= j < |Qt4Tools|
    ensures |Qt4Tools[j]| > 0 && Qt4Tools[j][0] in {'m', 'u', 'r', 'l'} && LineSafe(Qt4Tools[j])
  {
  }

  /**
   * Every key patchFile writes starts with a character that is not
   * whitespace, fits in a line, and starts with 'p' only when the line it
   * replaces was a prefix= line.
   */
  lemma KeyHead(st: Settings, env: Env, path: string, t: string)
    requires Assigned(st, env, path, t).Some?
    ensures var key := Assigned(st, env, path, t).value.0;
      |key| > 0 && !IsSpace(key[0]) && LineSafe(key) && (key[0] == 'p' ==> StartsWith(t, PrefixKey))
  {
    var n := AbsPath(env, st.newDir);
    if Major(st) == 5 {
      Qt5KeyHead(env, n, t);
    } else {
      Qt4KeyHead(env, n, BaseName(env, path), t);
    }
  }

  lemma Qt5KeyHead(env: Env, n: string, t: string)
    requires Qt5Assigned(env, n, t).Some?
    ensures var key := Qt5Assigned(env, n, t).value.0;
      |key| > 0 && !IsSpace(key[0]) && LineSafe(key) && (key[0] == 'p' ==> StartsWith(t, PrefixKey))
  {
    KeysPlain();
  }

  lemma Qt4KeyHead(env: Env, n: string, base: string, t: string)
    requires Qt4Assigned(env, n, base, t).Some?
    ensures var key := Qt4Assigned(env, n, base, t).value.0;
      |key| > 0 && !IsSpace(key[0]) && LineSafe(key) && (key[0] == 'p' ==> StartsWith(t, PrefixKey))
  {
    KeysPlain();
    if !StartsWith(t, PrefixKey) && !StartsWith(t, LibDirKey) && !StartsWith(t, IncludeDirKey) {
      var k := ToolIndex(Qt4Tools, t);
      ToolsPlain(k);
      LineSafeConcat(Qt4Tools[k], LocationSuffix);
      assert Qt4Assigned(env, n, base, t).value.0 == Qt4Tools[k] + LocationSuffix;
    }
  }

  /** With a prepared new location, every value patchFile writes fits in a line. */
  lemma ValueSafe(st: Settings, env: Env, path: string, t: string)
    requires Prepared(st, env) && LineSafe(st.newDir) && LineSafe(path)
    requires Assigned(st, env, path, t).Some?
    ensures LineSafe(Assigned(st, env, path, t).value.1)
  {
    var n := AbsPath(env, st.newDir);
    assert n == st.newDir;
    if Major(st) == 5 {
      Qt5ValueSafe(env, n, t);
    } else {
      LineSafeFrom(path, BaseName(env, path));
      Qt4ValueSafe(env, n, BaseName(env, path), t);
    }
  }

  lemma NativeSafe(env: Env, n: string)
    requires LineSafe(n)
    ensures LineSafe(ToNative(env, n))
  {
    LineSafeConcat(n, "\\");
    LineSafeFrom(n + "\\", ToNative(env, n));
  }

  lemma Qt5ValueSafe(env: Env, n: string, t: string)
    requires LineSafe(n) && Qt5Assigned(env, n, t).Some?
    ensures LineSafe(Qt5Assigned(env, n, t).value.1)
  {
    ValuesPlain();
    if StartsWith(t, PrefixKey) {
      NativeSafe(env, n);
      LineSafeFrom(ToNative(env, n), Escape(ToNative(env, n)));
    }
  }

  lemma Qt4ValueSafe(env: Env, n: string, base: string, t: string)
    requires LineSafe(n) && LineSafe(base) && Qt4Assigned(env, n, base, t).Some?
    ensures LineSafe(Qt4Assigned(env, n, base, t).value.1)
  {
    TailsPlain();
    if StartsWith(t, PrefixKey) {
      NativeSafe(env, n);
    } else if StartsWith(t, LibDirKey) {
      JoinedSafe(env, n, LibTail);
    } else if StartsWith(t, IncludeDirKey) {
      LineSafeConcat(IncludeTail, base);
      JoinedSafe(env, n, IncludeTail + base);
    } else {
      var k := ToolIndex(Qt4Tools, t);
      ToolsPlain(k);
      LineSafeConcat(BinTail, Qt4Tools[k]);
      JoinedSafe(env, n, BinTail + Qt4Tools[k]);
    }
  }

  /** A path joined from two parts that fit in a line, in Qt's internal form, fits in a line. */
  lemma JoinedSafe(env: Env, n: string, tail: string)
    requires LineSafe(n) && LineSafe(tail)
    ensures LineSafe(FromNative(env, n + tail))
  {
    LineSafeConcat(n, tail);
    LineSafeConcat(n + tail, "/");
    LineSafeFrom(n + tail + "/", FromNative(env, n + tail));
  }

  /** The conditions under which a rewritten prefix reads back as the new location. */
  predicate PrefixRoundTrips(st: Settings, env: Env)
  {
    Prepared(st, env) && (Major(st) == 5 || Major(st) == 4)
    && (Major(st) == 4 ==> NoDoubleBackslash(ToNative(env, st.newDir)))
  }

  /** A prefix= line written without whitespace in its value reads back as the unescaped value. */
  lemma PrefixLineOf(v: string)
    requires NoSpace(v)
    ensures PrefixPath(PrefixKey + v + "\n") == Some(Unescape(v))
  {
    var r := PrefixKey + v + "\n";
    var body := PrefixKey + v;
    assert Trim(r) == body by {
      assert AllSpace("") && AllSpace("\n");
      assert body[0] == 'p' && !IsSpace(body[|body| - 1]);
      TrimPadded("", body, "\n");
      assert "" + body + "\n" == r;
    }
    assert body[..7] == PrefixKey && body[7..] == v;
    TrimNoEdges(v);
  }

  /** What patchFile writes for a prefix= line: the new location in native form, escaped for Qt 5. */
  lemma PrefixAssigned(st: Settings, env: Env, path: string, t: string)
    requires PrefixRoundTrips(st, env) && StartsWith(t, PrefixKey)
    ensures Assigned(st, env, path, t).Some? && Assigned(st, env, path, t).value.0 == PrefixKey
    ensures NoSpace(Assigned(st, env, path, t).value.1)
    ensures Unescape(Assigned(st, env, path, t).value.1) == ToNative(env, st.newDir)
  {
    var n := AbsPath(env, st.newDir);
    assert n == st.newDir;
    var native := ToNative(env, n);
    NoSpaceFrom(n, native, '\\');
    if Major(st) == 5 {
      Qt5Prefix(env, n, t);
      NoSpaceFrom(native, Escape(native), '\\');
      UnescapeEscape(native);
    } else {
      Qt4Prefix(env, n, BaseName(env, path), t);
      UnescapeSingle(native);
    }
  }

  lemma Qt5Prefix(env: Env, n: string, t: string)
    requires StartsWith(t, PrefixKey)
    ensures Qt5Assigned(env, n, t) == Some((PrefixKey, Escape(ToNative(env, n))))
  {
  }

  lemma Qt4Prefix(env: Env, n: string, base: string, t: string)
    requires StartsWith(t, PrefixKey)
    ensures Qt4Assigned(env, n, base, t) == Some((PrefixKey, ToNative(env, n)))
  {
  }

  /** A prefix= line that patchFile rewrites reads back as a path naming the new location. */
  lemma PrefixReadsBack(st: Settings, env: Env, path: string, l: string)
    requires PrefixRoundTrips(st, env)
    requires StartsWith(Trim(l), PrefixKey)
    ensures PrefixPath(PcLine(st, env, path, l)).Some?
    ensures SamePath(env, PrefixPath(PcLine(st, env, path, l)).value, st.newDir)
  {
    PrefixAssigned(st, env, path, Trim(l));
    var v := Assigned(st, env, path, Trim(l)).value.1;
    assert PcLine(st, env, path, l) == PrefixKey + v + "\n";
    PrefixLineOf(v);
    NativeSamePath(env, st.newDir);
  }

  /** A line whose trimmed text is not a prefix= assignment does not become one. */
  lemma NoNewPrefix(st: Settings, env: Env, path: string, l: string)
    requires !StartsWith(Trim(l), PrefixKey)
    ensures PrefixPath(PcLine(st, env, path, l)).None?
  {
    var t := Trim(l);
    if Assigned(st, env, path, t).Some? {
      KeyHead(st, env, path, t);
      var kv := Assigned(st, env, path, t).value;
      assert PcLine(st, env, path, l) == kv.0 + kv.1 + "\n";
      OtherKeyLine(kv.0, kv.1);
    }
  }

  /** A line that starts with a key whose first character is neither whitespace nor 'p' is not a prefix= line. */
  lemma OtherKeyLine(key: string, value: string)
    requires |key| > 0 && !IsSpace(key[0]) && key[0] != 'p'
    ensures PrefixPath(key + value + "\n").None?
  {
    var r := key + value + "\n";
    assert r[0] == key[0];
    TrimKeepsFirst(r);
    FirstBlocksPrefix(Trim(r));
  }

  /** A text whose first character is not 'p' does not start with prefix=. */
  lemma FirstBlocksPrefix(t: string)
    requires |t| > 0 && t[0] != 'p'
    ensures !StartsWith(t, PrefixKey)
  {
    if |t| >= 7 {
      assert t[..7][0] != PrefixKey[0];
    }
  }

  /**
   * When the new location differs from the old one, no line patchFile
   * writes makes shouldPatch fire.
   */
  lemma PcLineQuiet(st: Settings, env: Env, path: string, l: string)
    requires PrefixRoundTrips(st, env)
    requires !SamePath(env, st.newDir, st.oldDir)
    ensures !PcTrigger(st, env, PcLine(st, env, path, l))
  {
    if StartsWith(Trim(l), PrefixKey) {
      PrefixReadsBack(st, env, path, l);
    } else {
      NoNewPrefix(st, env, path, l);
    }
  }

  /** Every line patchFile writes is one well-formed line, and keeps the newline of the line it replaces. */
  lemma PcLineClean(st: Settings, env: Env, path: string, l: string)
    requires Prepared(st, env) && LineSafe(st.newDir) && LineSafe(path)
    requires IsLine(l) && Latin1(l)
    ensures var r := PcLine(st, env, path, l);
      IsLine(r) && Latin1(r) && (EndsWithNewline(l) ==> EndsWithNewline(r))
  {
    var t := Trim(l);
    var a := Assigned(st, env, path, t);
    if a.Some? {
      KeyHead(st, env, path, t);
      ValueSafe(st, env, path, t);
      var (key, value) := a.value;
      KeyLine(key, value);
      assert PcLine(st, env, path, l) == key + value + "\n";
    } else {
      assert PcLine(st, env, path, l) == l;
    }
  }

  /** What shouldPatch answers for a name listed in lib/pkgconfig. */
  predicate ShouldPatchSpec(st: Settings, env: Env, fs: FS, name: string)
  {
    HasPkgDir(st, env) && AnyLineSpec(fs, AbsFilePath(env, PkgDir(st, env), name), Trigger(st, env))
  }

  /** PcPatcher::shouldPatch. */
  method ShouldPatch(st: Settings, env: Env, fs: FS, name: string) returns (b: bool)
    ensures b == ShouldPatchSpec(st, env, fs, name)
  {
    b := false;
    if HasPkgDir(st, env) {
      b := AnyLine(fs, AbsFilePath(env, PkgDir(st, env), name), Trigger(st, env));
    }
  }

  /** What patchFile reports and leaves behind. */
  function PatchFileSpec(st: Settings, env: Env, fs: FS, file: string): (r: (bool, FS))
    ensures r.0 <==> Readable(fs, QtPath(st, env, file))
    ensures forall k :: k != QtPath(st, env, file) ==> (k in r.1 <==> k in fs)
    ensures forall k :: k != QtPath(st, env, file) && k in fs ==> r.1[k] == fs[k]
  {
    var p := QtPath(st, env, file);
    PatchLinesSpec(fs, p, Rewrite(st, env, p))
  }

  /** PcPatcher::patchFile. */
  method PatchFile(st: Settings, env: Env, disk: Disk, file: string) returns (ok: bool)
    modifies disk
    ensures (ok, disk.files) == PatchFileSpec(st, env, old(disk.files), file)
  {
    var p := QtPath(st, env, file);
    ok := PatchLines(disk, p, Rewrite(st, env, p));
  }

  /**
   * After a patch of a listed file whose write went through, shouldPatch no
   * longer selects it, provided the new location differs from the old one.
   */
  lemma PatchFileIdempotent(st: Settings, env: Env, fs: FS, name: string)
    requires PrefixRoundTrips(st, env) && LineSafe(st.newDir)
    requires !SamePath(env, st.newDir, st.oldDir)
    requires !IsAbsolute(FromNative(env, name))
    requires Readable(fs, QtPath(st, env, PkgRel + name)) && fs[QtPath(st, env, PkgRel + name)].writable
    requires LineSafe(QtPath(st, env, PkgRel + name))
    ensures !ShouldPatchSpec(st, env, PatchFileSpec(st, env, fs, PkgRel + name).1, name)
  {
    var p := QtPath(st, env, PkgRel + name);
    PkgPath(st, env, name);
    var rw := Rewrite(st, env, p);
    var ls := LinesOf(fs[p]);
    forall k | 0 <= k < |ls|
      ensures IsLine(rw(ls[k])) && Latin1(rw(ls[k]))
      ensures EndsWithNewline(ls[k]) ==> EndsWithNewline(rw(ls[k]))
      ensures !Trigger(st, env)(rw(ls[k]))
    {
      LineLatin1(fs[p], k);
      PcLineClean(st, env, p, ls[k]);
      PcLineQuiet(st, env, p, ls[k]);
    }
    PatchQuiets(fs, p, rw, Trigger(st, env));
  }

  function Keep5(st: Settings, env: Env, fs: FS): string -> bool
  {
    n => ShouldPatchSpec(st, env, fs, n)
  }

  function Keep4(st: Settings, env: Env, fs: FS): string -> bool
  {
    n => IsQt4File(env, n) && ShouldPatchSpec(st, env, fs, n)
  }

  /** The files findFileToPatch5 returns. */
  function Find5Spec(st: Settings, env: Env, fs: FS): seq<string>
  {
    if StartsWith(st.crossSpec, "win32-msvc") || !HasPkgDir(st, env) then []
    else Select(Entries(env, PkgDir(st, env), Qt5Filters), Keep5(st, env, fs), PkgRel)
  }

  /** The files findFileToPatch4 returns. */
  function Find4Spec(st: Settings, env: Env, fs: FS): seq<string>
  {
    if StartsWith(st.crossSpec, "win32-msvc") || !HasPkgDir(st, env) then []
    else Select(Entries(env, PkgDir(st, env), Qt4Filters), Keep4(st, env, fs), PkgRel)
  }

  /** The files findFileToPatch returns. */
  function FindSpec(st: Settings, env: Env, fs: FS): (r: seq<string>)
    ensures Major(st) != 4 && Major(st) != 5 ==> r == []
    ensures StartsWith(st.crossSpec, "win32-msvc") || !HasPkgDir(st, env) ==> r == []
    ensures forall x :: x in r ==> StartsWith(x, PkgRel) && ShouldPatchSpec(st, env, fs, x[|PkgRel|..])
    ensures Major(st) == 4 ==> forall x :: x in r ==> StartsWith(x, PkgRel) && IsQt4File(env, x[|PkgRel|..])
  {
    if Major(st) == 5 then Find5Spec(st, env, fs)
    else if Major(st) == 4 then Find4Spec(st, env, fs)
    else []
  }

  /** The loop of findFileToPatch4 and findFileToPatch5 over the listing of lib/pkgconfig. */
  method SelectListed(st: Settings, env: Env, fs: FS, names: seq<string>, qt4: bool) returns (r: seq<string>)
    ensures r == Select(names, if qt4 then Keep4(st, env, fs) else Keep5(st, env, fs), PkgRel)
  {
    var keep := if qt4 then Keep4(st, env, fs) else Keep5(st, env, fs);
    r := [];
    for i := 0 to |names|
      invariant r == Select(names[..i], keep, PkgRel)
    {
      var should := false;
      if !qt4 || IsQt4File(env, names[i]) {
        should := ShouldPatch(st, env, fs, names[i]);
      }
      assert names[..i + 1][..i] == names[..i];
      if should {
        r := r + [PkgRel + names[i]];
      }
    }
    assert names[..|names|] == names;
  }

  /** PcPatcher::findFileToPatch. */
  method FindFileToPatch(st: Settings, env: Env, fs: FS) returns (files: seq<string>)
    ensures files == FindSpec(st, env, fs)
  {
    if (Major(st) != 5 && Major(st) != 4) || StartsWith(st.crossSpec, "win32-msvc") || !HasPkgDir(st, env) {
      return [];
    }
    var qt4 := Major(st) == 4;
    var names := Entries(env, PkgDir(st, env), if qt4 then Qt4Filters else Qt5Filters);
    files := SelectListed(st, env, fs, names, qt4);
  }

  /** A listed file that has been patched is not found again. */
  lemma PatchedNotFound(st: Settings, env: Env, fs: FS, name: string)
    requires PrefixRoundTrips(st, env) && LineSafe(st.newDir)
    requires !SamePath(env, st.newDir, st.oldDir)
    requires !IsAbsolute(FromNative(env, name))
    requires Readable(fs, QtPath(st, env, PkgRel + name)) && fs[QtPath(st, env, PkgRel + name)].writable
    requires LineSafe(QtPath(st, env, PkgRel + name))
    ensures PkgRel + name !in FindSpec(st, env, PatchFileSpec(st, env, fs, PkgRel + name).1)
  {
    PatchFileIdempotent(st, env, fs, name);
    assert (PkgRel + name)[|PkgRel|..] == name;
  }
}
