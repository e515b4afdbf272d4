/**
 * The CMake patcher (CMakePatcher). For Android cross builds of Qt 5,
 * Qt5GuiConfigExtras.cmake asks _qt5gui_find_extra_libs for the EGL and
 * OpenGL ES libraries; a call that names anything but the plain library
 * is replaced by the canonical call.
 */
module CMake {
  import opened Wrappers
  import opened Text
  import opened Paths
  import opened Files
  import opened Settings
  import opened QtDir
  import opened TextFile

  const GuiExtras := "lib/cmake/Qt5Gui/Qt5GuiConfigExtras.cmake"
  const GuiMark := "Qt5Gui"
  const CallPrefix := "_qt5gui_find_extra_libs("

  const EglArgs := "EGL \"EGL\" \"\" \"\""
  const OpenGlArgs := "OPENGL \"GLESv2\" \"\" \"\""
  const EglCall := "    " + CallPrefix + EglArgs + ")\n"
  const OpenGlCall := "    " + CallPrefix + OpenGlArgs + ")\n"

  /** QStringList::value(i): the i-th element, or the empty string past the end. */
  function ValueAt(l: seq<string>, i: nat): (r: string)
    ensures i < |l| ==> r == l[i]
    ensures i >= |l| ==> r == ""
  {
    if i < |l| then l[i] else ""
  }

  /**
   * The arguments of a _qt5gui_find_extra_libs call: the trimmed line after
   * the call's opening, without its last character, split on spaces; None
   * for any other line.
   */
  function CallArgs(l: string): (r: Option<seq<string>>)
    ensures r.Some? ==> |r.value| > 0
  {
    var t := Trim(l);
    if StartsWith(t, CallPrefix) then Some(Split(Chop(Mid(t, |CallPrefix|), 1), ' ')) else None
  }

  /** The line patchFile writes for one line it reads. */
  function CMakeLine(l: string): string
  {
    match CallArgs(l)
    case None => l
    case Some(args) =>
      if args[0] == "EGL" && ValueAt(args, 1) != "\"EGL\"" then EglCall
      else if args[0] == "OPENGL" && ValueAt(args, 1) != "\"GLESv2\"" then OpenGlCall
      else l
  }

  /** The line shouldPatch stops at. */
  predicate CMakeTrigger(l: string)
  {
    match CallArgs(l)
    case None => false
    case Some(args) =>
      (args[0] == "EGL" && ValueAt(args, 1) != "\"EGL\"")
      || (args[0] == "OPENGL" && ValueAt(args, 1) != "\"GLESv2\"")
  }

  /** A call written with four spaces of indentation reads back as its arguments split on spaces. */
  lemma CallArgsOf(args: string)
    ensures CallArgs("    " + CallPrefix + args + ")\n") == Some(Split(args, ' '))
  {
    var body := CallPrefix + args + ")";
    var l := "    " + CallPrefix + args + ")\n";
    assert l == "    " + body + "\n";
    assert body[0] == '_' && body[|body| - 1] == ')';
    assert AllSpace("    ") && AllSpace("\n");
    TrimPadded("    ", body, "\n");
    assert body[..|CallPrefix|] == CallPrefix;
    assert Mid(body, |CallPrefix|) == args + ")";
    assert Chop(args + ")", 1) == args;
  }

  /** Such a call, for arguments without a newline, is one well-formed line. */
  lemma CallLine(args: string)
    requires '\n' !in args && Latin1(args)
    ensures var l := "    " + CallPrefix + args + ")\n";
      IsLine(l) && EndsWithNewline(l) && Latin1(l)
  {
    var head := "    " + CallPrefix;
    CallHeadSafe();
    assert LineSafe(")");
    LineSafeConcat(args, ")");
    KeyLine(head, args + ")");
    assert head + (args + ")") + "\n" == "    " + CallPrefix + args + ")\n";
  }

  /** The indented start of the call fits in a line. */
  lemma CallHeadSafe()
    ensures LineSafe("    " + CallPrefix)
  {
    assert Printable("    " + CallPrefix);
    PrintableLineSafe("    " + CallPrefix);
  }

  /** The arguments of the canonical EGL call name the library "EGL". */
  lemma EglArgsOf()
    ensures |Split(EglArgs, ' ')| >= 2
    ensures Split(EglArgs, ' ')[0] == "EGL" && Split(EglArgs, ' ')[1] == "\"EGL\""
  {
    assert EglArgs == "EGL" + [' '] + "\"EGL\"" + [' '] + "\"\" \"\"";
    SplitFirstTwo("EGL", "\"EGL\"", ' ', "\"\" \"\"");
  }

  /** The canonical EGL call reads back as its arguments. */
  lemma EglCallOf()
    ensures CallArgs(EglCall) == Some(Split(EglArgs, ' '))
  {
    CallArgsOf(EglArgs);
  }

  /** The canonical EGL call is one well-formed line. */
  lemma EglCallLine()
    ensures IsLine(EglCall) && EndsWithNewline(EglCall) && Latin1(EglCall)
  {
    assert '\n' !in EglArgs && Latin1(EglArgs);
    CallLine(EglArgs);
  }

  /** The arguments of the canonical OPENGL call name the library "GLESv2". */
  lemma OpenGlArgsOf()
    ensures |Split(OpenGlArgs, ' ')| >= 2
    ensures Split(OpenGlArgs, ' ')[0] == "OPENGL" && Split(OpenGlArgs, ' ')[1] == "\"GLESv2\""
  {
    assert OpenGlArgs == "OPENGL" + [' '] + "\"GLESv2\"" + [' '] + "\"\" \"\"";
    SplitFirstTwo("OPENGL", "\"GLESv2\"", ' ', "\"\" \"\"");
  }

  /** The canonical OPENGL call reads back as its arguments. */
  lemma OpenGlCallOf()
    ensures CallArgs(OpenGlCall) == Some(Split(OpenGlArgs, ' '))
  {
    CallArgsOf(OpenGlArgs);
  }

  /** The canonical OPENGL call is one well-formed line. */
  lemma OpenGlCallLine()
    ensures IsLine(OpenGlCall) && EndsWithNewline(OpenGlCall) && Latin1(OpenGlCall)
  {
    assert '\n' !in OpenGlArgs && Latin1(OpenGlArgs);
    CallLine(OpenGlArgs);
  }

  /** A line that triggers is replaced by a canonical call; any other line is kept. */
  lemma CMakeLineCases(l: string)
    ensures CMakeTrigger(l) ==> CMakeLine(l) == EglCall || CMakeLine(l) == OpenGlCall
    ensures !CMakeTrigger(l) ==> CMakeLine(l) == l
  {
  }

  /** Whether a call triggers depends only on its first two arguments. */
  lemma TriggerOfArgs(l: string, args: seq<string>)
    requires CallArgs(l) == Some(args)
    ensures CMakeTrigger(l) <==>
      (args[0] == "EGL" && ValueAt(args, 1) != "\"EGL\"") || (args[0] == "OPENGL" && ValueAt(args, 1) != "\"GLESv2\"")
  {
  }

  /** The canonical EGL call does not trigger. */
  lemma EglQuiet()
    ensures !CMakeTrigger(EglCall)
  {
    EglCallOf();
    EglArgsOf();
    TriggerOfArgs(EglCall, Split(EglArgs, ' '));
  }

  /** The canonical OpenGL call does not trigger. */
  lemma OpenGlQuiet()
    ensures !CMakeTrigger(OpenGlCall)
  {
    OpenGlCallOf();
    OpenGlArgsOf();
    TriggerOfArgs(OpenGlCall, Split(OpenGlArgs, ' '));
  }

  /**
   * shouldPatch fires on exactly the lines patchFile changes, and never on a
   * line patchFile writes: patching is idempotent line by line.
   */
  lemma CMakeLineQuiet(l: string)
    ensures CMakeTrigger(l) <==> CMakeLine(l) != l
    ensures !CMakeTrigger(CMakeLine(l))
    ensures CMakeLine(l) != l ==> IsLine(CMakeLine(l)) && EndsWithNewline(CMakeLine(l)) && Latin1(CMakeLine(l))
  {
    CMakeLineCases(l);
    EglQuiet();
    OpenGlQuiet();
    EglCallLine();
    OpenGlCallLine();
  }

  /** What shouldPatch answers for a file. */
  predicate ShouldPatchSpec(st: Settings, env: Env, fs: FS, file: string)
  {
    Contains(file, GuiMark) && AnyLineSpec(fs, QtPath(st, env, file), CMakeTrigger)
  }

  /** CMakePatcher::shouldPatch. */
  method ShouldPatch(st: Settings, env: Env, fs: FS, file: string) returns (b: bool)
    ensures b == ShouldPatchSpec(st, env, fs, file)
  {
    b := false;
    if Contains(file, GuiMark) {
      b := AnyLine(fs, QtPath(st, env, file), CMakeTrigger);
    }
  }

  /** What patchFile reports and leaves behind. */
  function PatchFileSpec(st: Settings, env: Env, fs: FS, file: string): (r: (bool, FS))
    ensures r.0 <==> Contains(file, GuiMark) && Readable(fs, QtPath(st, env, file))
    ensures forall k :: k != QtPath(st, env, file) ==> (k in r.1 <==> k in fs)
    ensures forall k :: k != QtPath(st, env, file) && k in fs ==> r.1[k] == fs[k]
  {
    if Contains(file, GuiMark) then PatchLinesSpec(fs, QtPath(st, env, file), CMakeLine) else (false, fs)
  }

  /** CMakePatcher::patchFile. */
  method PatchFile(st: Settings, env: Env, disk: Disk, file: string) returns (ok: bool)
    modifies disk
    ensures (ok, disk.files) == PatchFileSpec(st, env, old(disk.files), file)
  {
    ok := false;
    if Contains(file, GuiMark) {
      ok := PatchLines(disk, QtPath(st, env, file), CMakeLine);
    }
  }

  /** After a patch whose write went through, shouldPatch no longer selects the file. */
  lemma PatchFileIdempotent(st: Settings, env: Env, fs: FS, file: string)
    requires Contains(file, GuiMark)
    requires Readable(fs, QtPath(st, env, file)) && fs[QtPath(st, env, file)].writable
    ensures !ShouldPatchSpec(st, env, PatchFileSpec(st, env, fs, file).1, file)
  {
    var p := QtPath(st, env, file);
    var ls := LinesOf(fs[p]);
    forall k | 0 <= k < |ls|
      ensures IsLine(CMakeLine(ls[k])) && Latin1(CMakeLine(ls[k]))
      ensures EndsWithNewline(ls[k]) ==> EndsWithNewline(CMakeLine(ls[k]))
      ensures !CMakeTrigger(CMakeLine(ls[k]))
    {
      LineLatin1(fs[p], k);
      CMakeLineQuiet(ls[k]);
    }
    PatchQuiets(fs, p, CMakeLine, CMakeTrigger);
  }

  /** The file findFileToPatch returns. */
  function FindSpec(st: Settings, env: Env, fs: FS): (r: seq<string>)
    ensures r == [] || r == [GuiExtras]
    ensures r == [GuiExtras] <==>
      Major(st) == 5 && StartsWith(st.crossSpec, "android")
      && QtExists(st, env, fs, GuiExtras) && ShouldPatchSpec(st, env, fs, GuiExtras)
  {
    if Major(st) == 5 && StartsWith(st.crossSpec, "android")
      && QtExists(st, env, fs, GuiExtras) && ShouldPatchSpec(st, env, fs, GuiExtras)
    then [GuiExtras] else []
  }

  /** CMakePatcher::findFileToPatch. */
  method FindFileToPatch(st: Settings, env: Env, fs: FS) returns (files: seq<string>)
    ensures files == FindSpec(st, env, fs)
  {
    if Major(st) != 5 {
      return [];
    }
    files := [];
    if StartsWith(st.crossSpec, "android") {
      if QtExists(st, env, fs, GuiExtras) {
        var should := ShouldPatch(st, env, fs, GuiExtras);
        if should {
          files := [GuiExtras];
        }
      }
    }
  }

  lemma GuiExtrasMarked()
    ensures Contains(GuiExtras, GuiMark)
  {
    assert GuiExtras == "lib/cmake/" + GuiMark + "/Qt5GuiConfigExtras.cmake";
    assert GuiExtras[10..16] == GuiMark;
    ContainsAt(GuiExtras, GuiMark, 10);
  }

  /** Once the file has been patched, discovery returns nothing: the patch is not repeated. */
  lemma FindAfterPatch(st: Settings, env: Env, fs: FS)
    requires Readable(fs, QtPath(st, env, GuiExtras)) && fs[QtPath(st, env, GuiExtras)].writable
    ensures FindSpec(st, env, PatchFileSpec(st, env, fs, GuiExtras).1) == []
  {
    GuiExtrasMarked();
    PatchFileIdempotent(st, env, fs, GuiExtras);
  }
}
