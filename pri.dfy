/**
 * The .pri patcher (PriPatcher). For Android cross builds, qmake's
 * qt_lib_gui_private.pri may name the OpenGL ES and EGL libraries by
 * absolute paths of the build machine; the patcher rewrites the two
 * assignments to plain "-l" linker flags. It also looks at
 * qt_lib_network_private.pri and warns when OpenSSL was linked in, because
 * that path cannot be patched automatically.
 */
module Pri {
  import opened Wrappers
  import opened Text
  import opened Paths
  import opened Files
  import opened Settings
  import opened QtDir
  import opened TextFile

  const GuiPri := "mkspecs/modules/qt_lib_gui_private.pri"
  const NetworkPri := "mkspecs/modules/qt_lib_network_private.pri"
  const GuiMark := "qt_lib_gui"
  const NetworkMark := "qt_lib_network"

  const Es2Key := "QMAKE_LIBS_OPENGL_ES2"
  const EglKey := "QMAKE_LIBS_EGL"
  const OpenSslKey := "QMAKE_LIBS_OPENSSL"

  const Es2Value := "-lGLESv2"
  const EglValue := "-lEGL"
  const Es2Line := Es2Key + " = " + Es2Value + "\n"
  const EglLine := EglKey + " = " + EglValue + "\n"

  /** A qmake variable name: upper-case letters, digits and underscores. */
  predicate VariableName(s: string)
  {
    |s| > 0 && forall c :: c in s ==> ('A' <= c <= 'Z') || ('0' <= c <= '9') || c == '_'
  }

  /** A variable name is a tight one-line word without '='. */
  lemma VariableNamePlain(s: string)
    requires VariableName(s)
    ensures '=' !in s && '\n' !in s && Latin1(s) && Tight(s)
  {
    assert s[0] in s && s[|s| - 1] in s;
  }

  /** The OpenGL ES key is a tight one-line word without '='. */
  lemma Es2KeyPlain()
    ensures '=' !in Es2Key && '\n' !in Es2Key && Latin1(Es2Key) && Tight(Es2Key)
  {
    assert VariableName(Es2Key);
    VariableNamePlain(Es2Key);
  }

  /** The EGL key is a tight one-line word without '='. */
  lemma EglKeyPlain()
    ensures '=' !in EglKey && '\n' !in EglKey && Latin1(EglKey) && Tight(EglKey)
  {
    assert VariableName(EglKey);
    VariableNamePlain(EglKey);
  }

  /** The two linker flags are tight one-line words that start with -l. */
  lemma ValuesPlain()
    ensures '\n' !in Es2Value && Latin1(Es2Value) && Tight(Es2Value) && StartsWith(Es2Value, "-l")
    ensures '\n' !in EglValue && Latin1(EglValue) && Tight(EglValue) && StartsWith(EglValue, "-l")
  {
  }

  /** The canonical OpenGL ES line is a well-formed line that reads back as its key and linker flag. */
  lemma Es2LineOf()
    ensures Assignment(Es2Line) == Some((Es2Key, Es2Value))
    ensures IsLine(Es2Line) && EndsWithNewline(Es2Line) && Latin1(Es2Line)
  {
    Es2KeyPlain();
    ValuesPlain();
    AssignmentOf(Es2Key, Es2Value);
    AssignmentLine(Es2Key, Es2Value);
  }

  /** The canonical EGL line is a well-formed line that reads back as its key and linker flag. */
  lemma EglLineOf()
    ensures Assignment(EglLine) == Some((EglKey, EglValue))
    ensures IsLine(EglLine) && EndsWithNewline(EglLine) && Latin1(EglLine)
  {
    EglKeyPlain();
    ValuesPlain();
    AssignmentOf(EglKey, EglValue);
    AssignmentLine(EglKey, EglValue);
  }

  /** The line patchFile writes for one line it reads. */
  function PriLine(l: string): (r: string)
    ensures Assignment(l).Some? && Assignment(l).value.0 == Es2Key ==>
      Assignment(r) == Some((Es2Key, Es2Value))
    ensures Assignment(l).Some? && Assignment(l).value.0 == EglKey ==>
      Assignment(r) == Some((EglKey, EglValue))
    ensures Assignment(l).None? || Assignment(l).value.0 !in {Es2Key, EglKey} ==> r == l
    ensures r != l ==> IsLine(r) && EndsWithNewline(r) && Latin1(r)
  {
    Es2LineOf();
    EglLineOf();
    match Assignment(l)
    case None => l
    case Some((key, _)) =>
      if key == Es2Key then Es2Line
      else if key == EglKey then EglLine
      else l
  }

  /** The line shouldPatch stops at: one of the two keys with a value that is not a "-l" flag. */
  predicate PriTrigger(l: string)
  {
    match Assignment(l)
    case None => false
    case Some((key, value)) => (key == Es2Key || key == EglKey) && !StartsWith(value, "-l")
  }

  /** No line patchFile writes makes shouldPatch fire. */
  lemma PriLineQuiet(l: string)
    ensures !PriTrigger(PriLine(l))
  {
    var r := PriLine(l);
    ValuesPlain();
    if r == Es2Line {
      Es2LineOf();
    } else if r == EglLine {
      EglLineOf();
    } else {
      assert r == l;
    }
  }

  /** What shouldPatch answers for a file. */
  predicate ShouldPatchSpec(st: Settings, env: Env, fs: FS, file: string)
  {
    Contains(file, GuiMark) && AnyLineSpec(fs, QtPath(st, env, file), PriTrigger)
  }

  /** PriPatcher::shouldPatch. */
  method ShouldPatch(st: Settings, env: Env, fs: FS, file: string) returns (b: bool)
    ensures b == ShouldPatchSpec(st, env, fs, file)
  {
    b := false;
    if Contains(file, GuiMark) {
      b := AnyLine(fs, QtPath(st, env, file), PriTrigger);
    }
  }

  /** What patchFile reports and leaves behind. */
  function PatchFileSpec(st: Settings, env: Env, fs: FS, file: string): (r: (bool, FS))
    ensures r.0 <==> Contains(file, GuiMark) && Readable(fs, QtPath(st, env, file))
    ensures forall k :: k != QtPath(st, env, file) ==> (k in r.1 <==> k in fs)
    ensures forall k :: k != QtPath(st, env, file) && k in fs ==> r.1[k] == fs[k]
  {
    if Contains(file, GuiMark) then PatchLinesSpec(fs, QtPath(st, env, file), PriLine) else (false, fs)
  }

  /** PriPatcher::patchFile. */
  method PatchFile(st: Settings, env: Env, disk: Disk, file: string) returns (ok: bool)
    modifies disk
    ensures (ok, disk.files) == PatchFileSpec(st, env, old(disk.files), file)
  {
    ok := false;
    if Contains(file, GuiMark) {
      ok := PatchLines(disk, QtPath(st, env, file), PriLine);
    }
  }

  /** After a patch whose write went through, shouldPatch no longer selects the file. */
  lemma PatchFileIdempotent(st: Settings, env: Env, fs: FS, file: string)
    requires Contains(file, GuiMark)
    requires Readable(fs, QtPath(st, env, file)) && fs[QtPath(st, env, file)].writable
    ensures !ShouldPatchSpec(st, env, PatchFileSpec(st, env, fs, file).1, file)
  {
    var p := QtPath(st, env, file);
    var ls := LinesOf(fs[p]);
    forall k | 0 <= k < |ls|
      ensures IsLine(PriLine(ls[k])) && Latin1(PriLine(ls[k]))
      ensures EndsWithNewline(ls[k]) ==> EndsWithNewline(PriLine(ls[k]))
      ensures !PriTrigger(PriLine(ls[k]))
    {
      LineLatin1(fs[p], k);
      PriLineQuiet(ls[k]);
    }
    PatchQuiets(fs, p, PriLine, PriTrigger);
  }

  /** A line that shows a linked OpenSSL: its key with a non-empty value. */
  predicate OpenSslLine(l: string)
  {
    match Assignment(l)
    case None => false
    case Some((key, value)) => key == OpenSslKey && value != ""
  }

  /** Whether openSSLDirWarning warns for a file. */
  predicate OpenSslSpec(st: Settings, env: Env, fs: FS, file: string)
  {
    Contains(file, NetworkMark) && AnyLineSpec(fs, QtPath(st, env, file), OpenSslLine)
  }

  /** PriPatcher::openSSLDirWarning: the warnings it emits. */
  method OpenSslDirWarning(st: Settings, env: Env, fs: FS, file: string) returns (w: seq<Warning>)
    ensures w == (if OpenSslSpec(st, env, fs, file) then [LinkedOpenSsl] else [])
  {
    w := [];
    if Contains(file, NetworkMark) {
      var found := AnyLine(fs, QtPath(st, env, file), OpenSslLine);
      if found {
        w := [LinkedOpenSsl];
      }
    }
  }

  /** The files findFileToPatch returns and the warnings it emits. */
  function FindSpec(st: Settings, env: Env, fs: FS): (r: (seq<string>, seq<Warning>))
    ensures r.0 == [] || r.0 == [GuiPri]
    ensures r.0 == [GuiPri] <==>
      StartsWith(st.crossSpec, "android") && QtExists(st, env, fs, GuiPri) && ShouldPatchSpec(st, env, fs, GuiPri)
    ensures r.1 == [] || r.1 == [LinkedOpenSsl]
  {
    var warnings :=
      if QtExists(st, env, fs, NetworkPri) && OpenSslSpec(st, env, fs, NetworkPri) then [LinkedOpenSsl] else [];
    var files :=
      if StartsWith(st.crossSpec, "android") && QtExists(st, env, fs, GuiPri) && ShouldPatchSpec(st, env, fs, GuiPri)
      then [GuiPri] else [];
    (files, warnings)
  }

  /** PriPatcher::findFileToPatch. */
  method FindFileToPatch(st: Settings, env: Env, fs: FS) returns (files: seq<string>, warnings: seq<Warning>)
    ensures (files, warnings) == FindSpec(st, env, fs)
  {
    warnings := [];
    if QtExists(st, env, fs, NetworkPri) {
      warnings := OpenSslDirWarning(st, env, fs, NetworkPri);
    }
    files := [];
    if StartsWith(st.crossSpec, "android") {
      if QtExists(st, env, fs, GuiPri) {
        var should := ShouldPatch(st, env, fs, GuiPri);
        if should {
          files := [GuiPri];
        }
      }
    }
  }

  lemma GuiPriMarked()
    ensures Contains(GuiPri, GuiMark)
  {
    assert GuiPri == "mkspecs/modules/" + GuiMark + "_private.pri";
    assert GuiPri[16..26] == GuiMark;
    ContainsAt(GuiPri, GuiMark, 16);
  }

  /** Once the gui .pri file has been patched, discovery returns nothing: the patch is not repeated. */
  lemma FindAfterPatch(st: Settings, env: Env, fs: FS)
    requires Readable(fs, QtPath(st, env, GuiPri)) && fs[QtPath(st, env, GuiPri)].writable
    ensures FindSpec(st, env, PatchFileSpec(st, env, fs, GuiPri).1).0 == []
  {
    GuiPriMarked();
    PatchFileIdempotent(st, env, fs, GuiPri);
  }
}
