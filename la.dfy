/**
 * The libtool patcher (LaPatcher). A libtool archive lib/libQt5*.la
 * records, on its dependency_libs= line, "-L" search paths and the paths of
 * the .la files it depends on, and on its libdir= line the directory it was
 * installed to. The patcher moves every entry that names the old lib
 * directory to the new one.
 */
module La {
  import opened Text
  import opened Paths
  import opened Files
  import opened Settings
  import opened QtDir
  import opened TextFile

  const Qt5Filters: seq<string> := ["libQt5*.la", "libEnginio.la"]
  const Qt4Filters: seq<string> := ["libQt*.la", "libphonon.la"]
  const LibRel := "lib/"

  const DepField := "dependency_libs="
  const DepOpen := "dependency_libs='"
  const LibDirField := "libdir="
  const LibDirOpen := "libdir='"

  /** Each line patchFile writes opens with its key and a quote; the two keys differ in their first character. */
  lemma KeysPlain()
    ensures DepOpen == DepField + "'" && LibDirOpen == LibDirField + "'"
    ensures |LibDirOpen| > 0 && LibDirOpen[0] == 'l' && |DepField| > 0 && DepField[0] == 'd'
  {
  }

  /** The opening of a dependency_libs line fits in a line. */
  lemma DepOpenPlain()
    ensures LineSafe(DepOpen)
  {
  }

  /** The opening of a libdir line fits in a line. */
  lemma LibDirOpenPlain()
    ensures LineSafe(LibDirOpen)
  {
  }

  /** QDir(oldDir + "/lib"): the directory the old entries point into. */
  function OldLib(st: Settings): string
  {
    st.oldDir + "/lib"
  }

  /** QDir(newDir + "/lib"). */
  function NewLibDir(st: Settings): string
  {
    st.newDir + "/lib"
  }

  /** The new lib directory as QDir cleans it: one separator before "lib", even after a root. */
  function NewLibPath(st: Settings): string
  {
    JoinDir(st.newDir, "lib")
  }

  /** newLibDir.absolutePath(). */
  function NewLib(st: Settings, env: Env): string
  {
    AbsPath(env, NewLibDir(st))
  }

  /** QDir(p with doubled backslashes undone) == oldLibDir. */
  predicate InOldLib(st: Settings, env: Env, p: string)
  {
    SamePath(env, Unescape(p), OldLib(st))
  }

  /**
   * QDir(QFileInfo(n with doubled backslashes undone).absolutePath()) ==
   * oldLibDir: the file n lies in the old lib directory. The directory is
   * already absolute, so it is compared as it is (FileInOldLibSamePath).
   */
  predicate FileInOldLib(st: Settings, env: Env, n: string)
  {
    AbsDir(env, Unescape(n)) == AbsPath(env, OldLib(st))
  }

  lemma FileInOldLibSamePath(st: Settings, env: Env, n: string)
    requires ValidEnv(env)
    ensures FileInOldLib(st, env, n) <==> SamePath(env, AbsDir(env, Unescape(n)), OldLib(st))
  {
    AbsDirAbsolute(env, Unescape(n));
  }

  /** Whether one dependency_libs entry names the old lib directory: a search path, or a file inside it; never a "-l" flag. */
  predicate OldToken(st: Settings, env: Env, n: string)
  {
    if StartsWith(n, "-L=") then InOldLib(st, env, n[3..])
    else if StartsWith(n, "-L") then InOldLib(st, env, n[2..])
    else if StartsWith(n, "-l") then false
    else FileInOldLib(st, env, n)
  }

  /** The entry patchFile writes for a file in the old lib directory, as written: QFileInfo(newLibDir, fi.baseName()). */
  function MovedFileAsWritten(st: Settings, env: Env, n: string): string
  {
    FromNative(env, AbsFilePath(env, NewLibDir(st), BaseName(env, Unescape(n))))
  }

  /**
   * The entry for a file in the old lib directory with its whole file name
   * kept: the corrected form of the libtool entry, and the entry the prl
   * patcher writes as it stands.
   */
  function MovedFile(st: Settings, env: Env, n: string): string
  {
    FromNative(env, AbsFilePath(env, NewLibDir(st), FileName(env, Unescape(n))))
  }

  /** The entry patchFile writes for one dependency_libs entry. */
  function NewToken(st: Settings, env: Env, n: string): string
  {
    if !OldToken(st, env, n) then n
    else if StartsWith(n, "-L=") then "-L=" + FromNative(env, NewLib(st, env))
    else if StartsWith(n, "-L") then "-L" + FromNative(env, NewLib(st, env))
    else MovedFileAsWritten(st, env, n)
  }

  function MapTokens(st: Settings, env: Env, toks: seq<string>): seq<string>
  {
    seq(|toks|, k requires 0 <= k < |toks| => NewToken(st, env, toks[k]))
  }

  /** The entries of a dependency_libs line whose trimmed text is t: between the opening quote and the last character, split at spaces. */
  function DepTokens(t: string): seq<string>
  {
    SplitSkipEmpty(Chop(Mid(t, 17), 1), ' ')
  }

  function DepLine(toks: seq<string>): string
  {
    DepOpen + Join(toks, ' ') + "'\n"
  }

  /** The libdir= value of a line whose trimmed text is t: the '=' sysroot mark, if there is one, and the path after it. */
  function LibDirValue(t: string): (string, string)
  {
    var s := Chop(Mid(t, 8), 1);
    if StartsWith(s, "=") then ("=", s[1..]) else ("", s)
  }

  function LibDirLine(st: Settings, env: Env, mark: string): string
  {
    LibDirOpen + mark + Escape(ToNative(env, NewLib(st, env))) + "'\n"
  }

  /** The line patchFile writes for one line it reads; a dependency_libs line is always written anew. */
  function LaLine(st: Settings, env: Env, l: string): string
  {
    var t := Trim(l);
    if StartsWith(t, DepField) then DepLine(MapTokens(st, env, DepTokens(t)))
    else if StartsWith(t, LibDirField) && InOldLib(st, env, LibDirValue(t).1) then LibDirLine(st, env, LibDirValue(t).0)
    else l
  }

  function Rewrite(st: Settings, env: Env): string -> string
  {
    l => LaLine(st, env, l)
  }

  function IsOld(st: Settings, env: Env): string -> bool
  {
    n => OldToken(st, env, n)
  }

  predicate AnyOldToken(st: Settings, env: Env, toks: seq<string>)
  {
    exists k :: 0 <= k < |toks| && OldToken(st, env, toks[k])
  }

  /** The line shouldPatch stops at. */
  predicate LaTrigger(st: Settings, env: Env, l: string)
  {
    var t := Trim(l);
    if StartsWith(t, DepField) then AnyOldToken(st, env, DepTokens(t))
    else StartsWith(t, LibDirField) && InOldLib(st, env, LibDirValue(t).1)
  }

  function Trigger(st: Settings, env: Env): string -> bool
  {
    l => LaTrigger(st, env, l)
  }

  /** The body of patchFile's loop over the entries of a dependency_libs line. */
  method RelocateToken(st: Settings, env: Env, n: string) returns (m: string)
    ensures m == NewToken(st, env, n)
  {
    m := n;
    if StartsWith(n, "-L=") {
      if InOldLib(st, env, n[3..]) {
        m := "-L=" + FromNative(env, NewLib(st, env));
      }
    } else if StartsWith(n, "-L") {
      if InOldLib(st, env, n[2..]) {
        m := "-L" + FromNative(env, NewLib(st, env));
      }
    } else if !StartsWith(n, "-l") {
      if FileInOldLib(st, env, n) {
        m := MovedFileAsWritten(st, env, n);
      }
    }
  }

  /** patchFile's loop over the entries of a dependency_libs line. */
  method RelocateTokens(st: Settings, env: Env, toks: seq<string>) returns (r: seq<string>)
    ensures r == MapTokens(st, env, toks)
  {
    r := [];
    for i := 0 to |toks|
      invariant r == MapWith(Relocate(st, env), toks[..i])
    {
      var n := RelocateToken(st, env, toks[i]);
      MapWithSnoc(Relocate(st, env), toks, i);
      r := r + [n];
    }
    assert toks[..|toks|] == toks;
    MapTokensIs(st, env, toks);
  }

  /** The rewrite patchFile applies to each entry, as a function value. */
  function Relocate(st: Settings, env: Env): string -> string
  {
    n => NewToken(st, env, n)
  }

  /** Every entry of toks rewritten by f. */
  function MapWith(f: string -> string, toks: seq<string>): seq<string>
  {
    seq(|toks|, k requires 0 <= k < |toks| => f(toks[k]))
  }

  /** Rewriting one more entry appends its image. */
  lemma MapWithSnoc(f: string -> string, toks: seq<string>, i: int)
    requires 0 <= i < |toks|
    ensures MapWith(f, toks[..i + 1]) == MapWith(f, toks[..i]) + [f(toks[i])]
  {
    var a, b := MapWith(f, toks[..i + 1]), MapWith(f, toks[..i]) + [f(toks[i])];
    forall k | 0 <= k < i + 1
      ensures a[k] == b[k]
    {
      assert toks[..i + 1][k] == toks[k];
    }
  }

  /** MapTokens rewrites every entry with Relocate. */
  lemma MapTokensIs(st: Settings, env: Env, toks: seq<string>)
    ensures MapTokens(st, env, toks) == MapWith(Relocate(st, env), toks)
  {
  }

  /** The body of patchFile's line loop. */
  method RewriteLine(st: Settings, env: Env, l: string) returns (out: string)
    ensures out == LaLine(st, env, l)
  {
    var t := Trim(l);
    out := l;
    if StartsWith(t, DepField) {
      var r := RelocateTokens(st, env, DepTokens(t));
      out := DepLine(r);
    } else if StartsWith(t, LibDirField) {
      var s := Chop(Mid(t, 8), 1);
      var mark := "";
      if StartsWith(s, "=") {
        mark := "=";
        s := s[1..];
      }
      if InOldLib(st, env, s) {
        out := LibDirLine(st, env, mark);
      }
    }
  }

  /** The test shouldPatch applies to one dependency_libs entry. */
  method TokenTriggers(st: Settings, env: Env, n: string) returns (b: bool)
    ensures b == OldToken(st, env, n)
  {
    if StartsWith(n, "-L=") {
      b := InOldLib(st, env, n[3..]);
    } else if StartsWith(n, "-L") {
      b := InOldLib(st, env, n[2..]);
    } else if !StartsWith(n, "-l") {
      b := FileInOldLib(st, env, n);
    } else {
      b := false;
    }
  }

  /** shouldPatch's loop over the entries of a dependency_libs line, returning at the first that names the old lib directory. */
  method AnyTokenTriggers(st: Settings, env: Env, toks: seq<string>) returns (b: bool)
    ensures b == AnyOldToken(st, env, toks)
  {
    for i := 0 to |toks|
      invariant forall k :: 0 <= k < i ==> !IsOld(st, env)(toks[k])
    {
      var hit := TokenTriggers(st, env, toks[i]);
      if hit {
        return true;
      }
      NoTriggerYet(toks, IsOld(st, env), i);
    }
    return false;
  }

  /** The body of shouldPatch's line loop. */
  method LineTriggers(st: Settings, env: Env, l: string) returns (b: bool)
    ensures b == LaTrigger(st, env, l)
  {
    var t := Trim(l);
    if StartsWith(t, DepField) {
      b := AnyTokenTriggers(st, env, DepTokens(t));
      return;
    }
    if StartsWith(t, LibDirField) {
      var s := Chop(Mid(t, 8), 1);
      if StartsWith(s, "=") {
        s := s[1..];
      }
      return InOldLib(st, env, s);
    }
    return false;
  }

  /** The file shouldPatch reads for a name listed in lib. */
  function LibPath(st: Settings, env: Env, name: string): string
  {
    AbsFilePath(env, QtPath(st, env, "lib"), name)
  }

  /** What shouldPatch answers for a name listed in lib. */
  predicate ShouldPatchSpec(st: Settings, env: Env, fs: FS, name: string)
  {
    QtHasDir(st, env, "lib") && AnyLineSpec(fs, LibPath(st, env, name), Trigger(st, env))
  }

  /** shouldPatch's loop over the lines of the file, returning at the first that triggers. */
  method AnyLineTriggers(st: Settings, env: Env, lines: seq<string>) returns (b: bool)
    ensures b == SomeLine(lines, Trigger(st, env))
  {
    for i := 0 to |lines|
      invariant forall k :: 0 <= k < i ==> !Trigger(st, env)(lines[k])
    {
      var hit := LineTriggers(st, env, lines[i]);
      if hit {
        return true;
      }
      NoTriggerYet(lines, Trigger(st, env), i);
    }
    return false;
  }

  /** LaPatcher::shouldPatch. */
  method ShouldPatch(st: Settings, env: Env, fs: FS, name: string) returns (b: bool)
    ensures b == ShouldPatchSpec(st, env, fs, name)
  {
    if !QtHasDir(st, env, "lib") {
      return false;
    }
    var p := LibPath(st, env, name);
    if !(p in fs && fs[p].readable) {
      return false;
    }
    b := AnyLineTriggers(st, env, LinesOf(fs[p]));
  }

  /** What patchFile reports and leaves behind. */
  function PatchFileSpec(st: Settings, env: Env, fs: FS, file: string): (r: (bool, FS))
    ensures r.0 <==> Readable(fs, QtPath(st, env, file))
    ensures forall k :: k != QtPath(st, env, file) ==> (k in r.1 <==> k in fs)
    ensures forall k :: k != QtPath(st, env, file) && k in fs ==> r.1[k] == fs[k]
  {
    PatchLinesSpec(fs, QtPath(st, env, file), Rewrite(st, env))
  }

  /** patchFile's loop over the lines of the file, accumulating the bytes it writes back. */
  method RewriteLines(st: Settings, env: Env, lines: seq<string>) returns (toWrite: Bytes)
    ensures toWrite == Encode(Concat(MapLines(Rewrite(st, env), lines)))
  {
    toWrite := [];
    for i := 0 to |lines|
      invariant toWrite == Encode(Concat(MapLines(Rewrite(st, env), lines[..i])))
    {
      var out := RewriteLine(st, env, lines[i]);
      RewriteStep(Rewrite(st, env), lines, i);
      toWrite := toWrite + Encode(out);
    }
    assert lines[..|lines|] == lines;
  }

  /** LaPatcher::patchFile. */
  method PatchFile(st: Settings, env: Env, disk: Disk, file: string) returns (ok: bool)
    modifies disk
    ensures (ok, disk.files) == PatchFileSpec(st, env, old(disk.files), file)
  {
    var p := QtPath(st, env, file);
    if !(p in disk.files && disk.files[p].readable) {
      return false;
    }
    var toWrite := RewriteLines(st, env, LinesOf(disk.files[p]));
    disk.files := Write(disk.files, p, toWrite).1;
    ok := true;
  }

  /**
   * A prepared new location without backslashes, on Unix too: written
   * without escaping into dependency_libs, it reads back unchanged.
   */
  predicate Ready(st: Settings, env: Env)
  {
    Prepared(st, env) && '\\' !in st.newDir
  }

  /** On Windows no backslash survives fromNativeSeparators; on Unix the text has none. */
  predicate Plain(env: Env, s: string)
  {
    env.platform == Windows || '\\' !in s
  }

  /** Text made of characters of a plain text is plain. */
  lemma PlainFrom(env: Env, s: string, r: string)
    requires Plain(env, s) && forall c :: c in r ==> c in s
    ensures Plain(env, r)
  {
  }

  /**
   * newLibDir.absolutePath(): the new location and "lib" joined by one
   * separator, so "/" gives "/lib".
   */
  lemma NewLibIs(st: Settings, env: Env)
    requires Ready(st, env)
    ensures NewLib(st, env) == NewLibPath(st)
    ensures IsAbsolute(NewLibPath(st)) && '\\' !in NewLibPath(st) && NoSpace(NewLibPath(st)) && IsClean(env, NewLibPath(st))
    ensures |NewLibPath(st)| > 1 && NewLibPath(st)[0] == st.newDir[0] && NewLibPath(st)[|NewLibPath(st)| - 1] != '/'
  {
    var n := st.newDir;
    var d := NewLibPath(st);
    assert IsAbsolute(n) && IsClean(env, n);
    assert NewLibDir(st) == n + "/" + "lib";
    AbsPathJoin(env, n, "lib");
    LibPathChars(n);
  }

  /** "lib" joined to a path without spaces or backslashes has none either. */
  lemma LibPathChars(n: string)
    requires |n| > 0 && NoSpace(n) && '\\' !in n
    ensures var d := JoinDir(n, "lib");
      NoSpace(d) && '\\' !in d && |d| > 1 && d[0] == n[0] && d[|d| - 1] == 'b'
  {
    var d := JoinDir(n, "lib");
    forall c | c in d
      ensures !IsSpace(c) && c != '\\'
    {
      if c !in n {
        assert c == '/' || c == 'l' || c == 'i' || c == 'b';
      }
    }
  }

  /** A file name without separators, joined to the new lib directory, keeps its name; a relative one lands in that directory. */
  lemma JoinedName(st: Settings, env: Env, name: string)
    requires Ready(st, env) && '/' !in name && '\\' !in name
    ensures var w := FromNative(env, AbsFilePath(env, NewLibDir(st), name));
      FileName(env, w) == name && '\\' !in w
      && (IsAbsolute(name) ==> w == name)
      && (!IsAbsolute(name) ==> w == NewLibPath(st) + "/" + name)
  {
    NewLibIs(st, env);
    var d := NewLibPath(st);
    if IsAbsolute(name) {
      assert LastSlash(name) == -1;
    } else {
      var w := d + "/" + name;
      assert AbsFilePath(env, NewLibDir(st), name) == JoinDir(d, name) == w;
      LastSlashJoin(d, name);
      assert w[|d| + 1..] == name;
    }
  }

  /** The name of the file an entry points to has no separators, and, in a plain entry, no backslash. */
  lemma EntryName(env: Env, n: string)
    requires Plain(env, n)
    ensures '/' !in FileName(env, Unescape(n)) && '\\' !in FileName(env, Unescape(n))
  {
  }

  /** Its base name is a part of the file name, so the same holds of it. */
  lemma EntryBaseName(env: Env, n: string)
    requires Plain(env, n)
    ensures '/' !in BaseName(env, Unescape(n)) && '\\' !in BaseName(env, Unescape(n))
    ensures forall c :: c in BaseName(env, Unescape(n)) ==> c in FileName(env, Unescape(n))
  {
    EntryName(env, n);
  }

  /**
   * A dependency on a file in the old lib directory is moved to the same
   * file name in the new lib directory.
   */
  lemma MovedFileRelocates(st: Settings, env: Env, n: string)
    requires Ready(st, env) && Plain(env, n)
    ensures FileName(env, MovedFile(st, env, n)) == FileName(env, Unescape(n))
    ensures !IsAbsolute(FileName(env, Unescape(n))) ==> AbsDir(env, MovedFile(st, env, n)) == NewLib(st, env)
  {
    var name := FileName(env, Unescape(n));
    EntryName(env, n);
    JoinedName(st, env, name);
    NewLibIs(st, env);
    if !IsAbsolute(name) {
      AbsDirJoin(env, NewLibPath(st), name);
    }
  }

  /**
   * As written, the moved entry keeps only the base name: a dependency
   * /old/lib/libQt5Core.la becomes /new/lib/libQt5Core, a file that does
   * not exist.
   */
  lemma AsWrittenLosesSuffix(st: Settings, env: Env, n: string)
    requires Ready(st, env) && Plain(env, n)
    requires '.' in FileName(env, Unescape(n))
    ensures FileName(env, MovedFileAsWritten(st, env, n)) != FileName(env, Unescape(n))
  {
    var base := BaseName(env, Unescape(n));
    JoinedName(st, env, base);
    assert '.' !in base;
  }

  /** An entry that does not start with '-' is a file entry. */
  lemma NotFlag(st: Settings, env: Env, w: string)
    requires |w| > 0 && w[0] != '-'
    ensures OldToken(st, env, w) == FileInOldLib(st, env, w)
  {
    DiffersAt(w, "-L=", 0);
    DiffersAt(w, "-L", 0);
    DiffersAt(w, "-l", 0);
  }

  /** A file entry without backslashes whose directory is not the old lib directory does not name it. */
  lemma QuietFile(st: Settings, env: Env, w: string)
    requires |w| > 0 && w[0] != '-' && '\\' !in w
    requires AbsDir(env, w) != AbsPath(env, OldLib(st))
    ensures !OldToken(st, env, w)
  {
    NotFlag(st, env, w);
    UnescapePlain(w);
  }

  /** The old lib directory, made absolute, contains a '/'. */
  lemma OldLibSlash(st: Settings, env: Env)
    ensures '/' in AbsPath(env, OldLib(st))
  {
    var o := OldLib(st);
    var q := FromNative(env, o);
    assert o[|st.oldDir|] == '/' && o[|o| - 1] == 'b';
    assert q[|q| - 1] == 'b' by {
      if env.platform == Windows {
        assert q == ReplaceChar(o, '\\', '/');
      }
    }
    var s := Resolved(env, o);
    if IsAbsolute(q) {
      assert q[|st.oldDir|] == '/' by {
        if env.platform == Windows {
          assert q == ReplaceChar(o, '\\', '/');
        }
      }
      CleanKeepsSlash(env, s, |st.oldDir|);
    } else {
      assert s == env.cwd + "/" + q;
      assert s[|env.cwd|] == '/';
      CleanKeepsSlash(env, s, |env.cwd|);
    }
  }

  /** A file name joined to the new lib directory, or an absolute one kept, is not in the old lib directory. */
  lemma JoinedQuiet(st: Settings, env: Env, name: string, w: string)
    requires Ready(st, env) && '/' !in name && '\\' !in name
    requires !SamePath(env, NewLibDir(st), OldLib(st))
    requires IsAbsolute(name) ==> w == name
    requires !IsAbsolute(name) ==> w == NewLibPath(st) + "/" + name
    ensures !OldToken(st, env, w)
  {
    var d := NewLibPath(st);
    NewLibIs(st, env);
    if IsAbsolute(name) {
      assert LastSlash(w) == -1;
      AbsPathOfAbsolute(env, w);
      OldLibSlash(st, env);
      assert AbsDir(env, w) == w;
    } else {
      assert w[0] == d[0];
      AbsDirJoin(env, d, name);
    }
    QuietFile(st, env, w);
  }

  /**
   * A moved file entry is neither a flag nor in the old lib directory,
   * whether it keeps the file name or, as written, only the base name.
   */
  lemma MovedFileQuiet(st: Settings, env: Env, n: string)
    requires Ready(st, env) && Plain(env, n)
    requires !SamePath(env, NewLibDir(st), OldLib(st))
    ensures !OldToken(st, env, MovedFileAsWritten(st, env, n))
    ensures !OldToken(st, env, MovedFile(st, env, n))
  {
    var name := FileName(env, Unescape(n));
    EntryName(env, n);
    JoinedName(st, env, name);
    JoinedQuiet(st, env, name, MovedFile(st, env, n));
    var base := BaseName(env, Unescape(n));
    EntryBaseName(env, n);
    JoinedName(st, env, base);
    JoinedQuiet(st, env, base, MovedFileAsWritten(st, env, n));
  }

  /** The new lib directory is not the old one. */
  lemma NewLibNotOld(st: Settings, env: Env)
    requires Ready(st, env)
    requires !SamePath(env, NewLibDir(st), OldLib(st))
    ensures !InOldLib(st, env, NewLibPath(st))
  {
    NewLibIs(st, env);
    UnescapePlain(NewLibPath(st));
  }

  /** A search path entry names the old lib directory when its path does. */
  lemma SearchOld(st: Settings, env: Env, w: string, p: string)
    requires (StartsWith(w, "-L=") && p == w[3..]) || (!StartsWith(w, "-L=") && StartsWith(w, "-L") && p == w[2..])
    ensures OldToken(st, env, w) == InOldLib(st, env, p)
  {
  }

  /** A search path entry for the new lib directory does not name the old one. */
  lemma SearchQuiet(st: Settings, env: Env, flag: string)
    requires Ready(st, env) && (flag == "-L=" || flag == "-L")
    requires !SamePath(env, NewLibDir(st), OldLib(st))
    ensures !OldToken(st, env, flag + NewLibPath(st))
  {
    var d := NewLibPath(st);
    var w := flag + d;
    NewLibIs(st, env);
    NewLibNotOld(st, env);
    StartsWithConcat(flag, d);
    if flag == "-L=" {
      SearchOld(st, env, w, d);
    } else {
      assert w[2] == d[0];
      DiffersAt(w, "-L=", 2);
      SearchOld(st, env, w, d);
    }
  }

  /** The entry written for a search path in the old lib directory. */
  lemma SearchEntry(st: Settings, env: Env, n: string)
    requires Ready(st, env) && OldToken(st, env, n)
    ensures StartsWith(n, "-L=") ==> NewToken(st, env, n) == "-L=" + NewLibPath(st)
    ensures !StartsWith(n, "-L=") && StartsWith(n, "-L") ==> NewToken(st, env, n) == "-L" + NewLibPath(st)
    ensures !StartsWith(n, "-L") ==> NewToken(st, env, n) == MovedFileAsWritten(st, env, n)
  {
    NewLibIs(st, env);
    assert "-L=" == "-L" + "=";
    if StartsWith(n, "-L=") {
      StartsWithShorter(n, "-L", "=");
    }
  }

  /**
   * No entry patchFile writes names the old lib directory, provided the new
   * lib directory differs from the old one.
   */
  lemma NewTokenQuiet(st: Settings, env: Env, n: string)
    requires Ready(st, env) && Plain(env, n)
    requires !SamePath(env, NewLibDir(st), OldLib(st))
    ensures !OldToken(st, env, NewToken(st, env, n))
  {
    if OldToken(st, env, n) {
      SearchEntry(st, env, n);
      if StartsWith(n, "-L=") {
        SearchQuiet(st, env, "-L=");
      } else if StartsWith(n, "-L") {
        SearchQuiet(st, env, "-L");
      } else {
        MovedFileQuiet(st, env, n);
      }
    }
  }

  /** The new lib directory is a word that fits in a line when the new location does. */
  lemma NewLibWord(st: Settings, env: Env)
    requires Ready(st, env)
    ensures NewLibPath(st) != [] && ' ' !in NewLibPath(st)
    ensures LineSafe(st.newDir) ==> LineSafe(NewLibPath(st))
  {
    LibPathChars(st.newDir);
    if LineSafe(st.newDir) {
      assert LineSafe("lib") && LineSafe("/lib");
      if st.newDir[|st.newDir| - 1] == '/' {
        LineSafeConcat(st.newDir, "lib");
      } else {
        LineSafeConcat(st.newDir, "/lib");
      }
    }
  }

  /** A file name joined to the new lib directory, or an absolute one kept, is a word that fits in a line when the name does. */
  lemma JoinedWord(st: Settings, env: Env, name: string, w: string)
    requires Ready(st, env) && ' ' !in name
    requires IsAbsolute(name) ==> w == name
    requires !IsAbsolute(name) ==> w == NewLibPath(st) + "/" + name
    ensures w != [] && ' ' !in w
    ensures LineSafe(st.newDir) && LineSafe(name) ==> LineSafe(w)
  {
    var d := NewLibPath(st);
    NewLibWord(st, env);
    if !IsAbsolute(name) && LineSafe(st.newDir) && LineSafe(name) {
      LineSafeConcat(d, "/");
      LineSafeConcat(d + "/", name);
    }
  }

  /** The name of the file an entry points to is made of characters of the entry. */
  lemma EntryWord(env: Env, n: string)
    requires ' ' !in n
    ensures ' ' !in FileName(env, Unescape(n))
    ensures forall c :: c in FileName(env, Unescape(n)) ==> c in n
  {
  }

  /**
   * A moved file entry is a non-empty word, of one-byte characters when its
   * inputs are, whether it keeps the file name or, as written, only the
   * base name.
   */
  lemma MovedFileWord(st: Settings, env: Env, n: string)
    requires Ready(st, env) && Plain(env, n) && ' ' !in n
    ensures MovedFileAsWritten(st, env, n) != [] && ' ' !in MovedFileAsWritten(st, env, n)
    ensures LineSafe(st.newDir) && LineSafe(n) ==> LineSafe(MovedFileAsWritten(st, env, n))
    ensures MovedFile(st, env, n) != [] && ' ' !in MovedFile(st, env, n)
    ensures LineSafe(st.newDir) && LineSafe(n) ==> LineSafe(MovedFile(st, env, n))
  {
    var name := FileName(env, Unescape(n));
    EntryName(env, n);
    EntryWord(env, n);
    JoinedName(st, env, name);
    if LineSafe(n) {
      LineSafeFrom(n, name);
    }
    JoinedWord(st, env, name, MovedFile(st, env, n));
    var base := BaseName(env, Unescape(n));
    EntryBaseName(env, n);
    JoinedName(st, env, base);
    if LineSafe(n) {
      LineSafeFrom(n, base);
    }
    JoinedWord(st, env, base, MovedFileAsWritten(st, env, n));
  }

  /** A search path entry for the new lib directory is a word, of one-byte characters when the new location is. */
  lemma SearchWord(st: Settings, env: Env, flag: string)
    requires Ready(st, env) && (flag == "-L=" || flag == "-L")
    ensures flag + NewLibPath(st) != [] && ' ' !in flag + NewLibPath(st)
    ensures LineSafe(st.newDir) ==> LineSafe(flag + NewLibPath(st))
  {
    NewLibWord(st, env);
    if LineSafe(st.newDir) {
      LineSafeConcat(flag, NewLibPath(st));
    }
  }

  /** Every entry patchFile writes is a non-empty word without spaces, of one-byte characters when its inputs are. */
  lemma NewTokenWord(st: Settings, env: Env, n: string)
    requires Ready(st, env) && Plain(env, n)
    requires n != [] && ' ' !in n
    ensures NewToken(st, env, n) != [] && ' ' !in NewToken(st, env, n)
    ensures LineSafe(st.newDir) && LineSafe(n) ==> LineSafe(NewToken(st, env, n))
  {
    if OldToken(st, env, n) {
      SearchEntry(st, env, n);
      if StartsWith(n, "-L=") {
        SearchWord(st, env, "-L=");
      } else if StartsWith(n, "-L") {
        SearchWord(st, env, "-L");
      } else {
        MovedFileWord(st, env, n);
      }
    }
  }

  /** A dependency_libs line patchFile writes is read as a dependency_libs line. */
  lemma DepLineKey(toks: seq<string>)
    ensures StartsWith(Trim(DepLine(toks)), DepField)
  {
    var j := Join(toks, ' ');
    assert DepLine(toks) == DepOpen + j + "'\n";
    KeysPlain();
    QuotedLine(DepOpen, j);
    StartsWithShorter(DepOpen + j + "'", DepField, "'");
  }

  /** A dependency_libs line patchFile writes reads back as the entries it was written from. */
  lemma DepLineReadBack(toks: seq<string>)
    requires forall k :: 0 <= k < |toks| ==> toks[k] != [] && ' ' !in toks[k]
    ensures DepTokens(Trim(DepLine(toks))) == toks
  {
    QuotedWords(DepOpen, toks);
  }

  /** The first character of the escaped native form of an absolute path is neither '=' nor whitespace. */
  lemma EscapedHead(env: Env, d: string)
    requires IsAbsolute(d)
    ensures var e := Escape(ToNative(env, d)); |e| > 0 && e[0] != '=' && !IsSpace(e[0])
  {
    var native := ToNative(env, d);
    if env.platform == Windows {
      assert native[0] == (if d[0] == '/' then '\\' else d[0]);
    }
  }

  /** A libdir= line patchFile writes is read as a libdir= line. */
  lemma LibDirKey(st: Settings, env: Env, mark: string)
    ensures var t := Trim(LibDirLine(st, env, mark));
      StartsWith(t, LibDirField) && !StartsWith(t, DepField)
  {
    var v := mark + Escape(ToNative(env, NewLib(st, env)));
    assert LibDirLine(st, env, mark) == LibDirOpen + v + "'\n";
    KeysPlain();
    QuotedLine(LibDirOpen, v);
    StartsWithShorter(LibDirOpen + v + "'", LibDirField, "'");
    assert (LibDirOpen + v + "'")[0] == 'l';
  }

  /** The value of a libdir= line splits into the sysroot mark it was written with and the path after it. */
  lemma MarkSplit(mark: string, e: string)
    requires mark == "" || mark == "="
    requires |e| > 0 && e[0] != '='
    ensures var s := mark + e;
      (if StartsWith(s, "=") then ("=", s[1..]) else ("", s)) == (mark, e)
  {
    var s := mark + e;
    if mark == "=" {
      assert s[0] == '=' && s[1..] == e;
    } else {
      assert s == e;
    }
  }

  /** A libdir= line written with a sysroot mark and a path that does not start with '=' reads back as that mark and that path. */
  lemma LibDirLineValue(mark: string, e: string)
    requires mark == "" || mark == "="
    requires |e| > 0 && e[0] != '='
    ensures LibDirValue(Trim(LibDirOpen + mark + e + "'\n")) == (mark, e)
  {
    QuotedValue(LibDirOpen, mark + e);
    assert LibDirOpen + mark + e + "'\n" == LibDirOpen + (mark + e) + "'\n";
    MarkSplit(mark, e);
  }

  /** A libdir= line patchFile writes reads back as the sysroot mark and the escaped native new lib directory. */
  lemma LibDirReadBack(st: Settings, env: Env, mark: string)
    requires Ready(st, env) && (mark == "" || mark == "=")
    ensures LibDirValue(Trim(LibDirLine(st, env, mark))) == (mark, Escape(ToNative(env, NewLib(st, env))))
  {
    NewLibIs(st, env);
    EscapedHead(env, NewLib(st, env));
    LibDirLineValue(mark, Escape(ToNative(env, NewLib(st, env))));
  }

  /** Every entry of a dependency_libs line is a word of characters of the trimmed line. */
  lemma DepTokensOf(t: string)
    ensures forall k :: 0 <= k < |DepTokens(t)| ==>
      DepTokens(t)[k] != [] && ' ' !in DepTokens(t)[k]
      && forall c :: c in DepTokens(t)[k] ==> c in t
  {
    var s := Chop(Mid(t, 17), 1);
    assert forall c :: c in s ==> c in t;
    SplitSkipEmptyChars(s, ' ');
  }

  /** A dependency_libs line written from plain words does not make shouldPatch fire. */
  lemma DepLineQuiet(st: Settings, env: Env, toks: seq<string>)
    requires Ready(st, env) && !SamePath(env, NewLibDir(st), OldLib(st))
    requires forall k :: 0 <= k < |toks| ==> toks[k] != [] && ' ' !in toks[k] && Plain(env, toks[k])
    ensures !LaTrigger(st, env, DepLine(MapTokens(st, env, toks)))
  {
    var out := MapTokens(st, env, toks);
    forall k | 0 <= k < |out|
      ensures out[k] != [] && ' ' !in out[k] && !OldToken(st, env, out[k])
    {
      NewTokenWord(st, env, toks[k]);
      NewTokenQuiet(st, env, toks[k]);
    }
    DepLineKey(out);
    DepLineReadBack(out);
  }

  /** A libdir= line patchFile writes does not make shouldPatch fire. */
  lemma LibDirLineQuiet(st: Settings, env: Env, mark: string)
    requires Ready(st, env) && !SamePath(env, NewLibDir(st), OldLib(st))
    requires mark == "" || mark == "="
    ensures !LaTrigger(st, env, LibDirLine(st, env, mark))
  {
    LibDirKey(st, env, mark);
    LibDirReadBack(st, env, mark);
    NewLibIs(st, env);
    UnescapeEscape(ToNative(env, NewLibPath(st)));
    NativeSamePath(env, NewLibPath(st));
  }

  /**
   * When the new lib directory differs from the old one, no line patchFile
   * writes makes shouldPatch fire.
   */
  lemma LaLineQuiet(st: Settings, env: Env, l: string)
    requires Ready(st, env) && Plain(env, l)
    requires !SamePath(env, NewLibDir(st), OldLib(st))
    ensures !LaTrigger(st, env, LaLine(st, env, l))
  {
    var t := Trim(l);
    if StartsWith(t, DepField) {
      DepLineOfQuiet(st, env, l);
    } else if StartsWith(t, LibDirField) && InOldLib(st, env, LibDirValue(t).1) {
      LibDirLineOfQuiet(st, env, l);
    } else {
      assert LaLine(st, env, l) == l;
    }
  }

  /** The dependency_libs line written for a plain line does not make shouldPatch fire. */
  lemma DepLineOfQuiet(st: Settings, env: Env, l: string)
    requires Ready(st, env) && Plain(env, l) && StartsWith(Trim(l), DepField)
    requires !SamePath(env, NewLibDir(st), OldLib(st))
    ensures !LaTrigger(st, env, LaLine(st, env, l))
  {
    var t := Trim(l);
    var toks := DepTokens(t);
    TrimChars(l);
    PlainFrom(env, l, t);
    DepTokensOf(t);
    forall k | 0 <= k < |toks|
      ensures Plain(env, toks[k])
    {
      PlainFrom(env, t, toks[k]);
    }
    DepLineQuiet(st, env, toks);
    assert LaLine(st, env, l) == DepLine(MapTokens(st, env, toks));
  }

  /** The libdir line written in place of one naming the old lib directory does not make shouldPatch fire. */
  lemma LibDirLineOfQuiet(st: Settings, env: Env, l: string)
    requires Ready(st, env) && !StartsWith(Trim(l), DepField)
    requires StartsWith(Trim(l), LibDirField) && InOldLib(st, env, LibDirValue(Trim(l)).1)
    requires !SamePath(env, NewLibDir(st), OldLib(st))
    ensures !LaTrigger(st, env, LaLine(st, env, l))
  {
    var t := Trim(l);
    LibDirLineQuiet(st, env, LibDirValue(t).0);
    assert LaLine(st, env, l) == LibDirLine(st, env, LibDirValue(t).0);
  }

  /** A dependency_libs line written from plain words that fit in a line is one well-formed line. */
  lemma DepLineClean(st: Settings, env: Env, toks: seq<string>)
    requires Ready(st, env) && LineSafe(st.newDir)
    requires forall k :: 0 <= k < |toks| ==>
      toks[k] != [] && ' ' !in toks[k] && LineSafe(toks[k]) && Plain(env, toks[k])
    ensures var r := DepLine(MapTokens(st, env, toks));
      IsLine(r) && Latin1(r) && EndsWithNewline(r)
  {
    var out := MapTokens(st, env, toks);
    forall k | 0 <= k < |out|
      ensures LineSafe(out[k])
    {
      NewTokenWord(st, env, toks[k]);
    }
    JoinLineSafe(out, ' ');
    DepOpenPlain();
    QuotedLineSafe(DepOpen, Join(out, ' '));
  }

  /** A libdir= line patchFile writes is one well-formed line. */
  lemma LibDirLineClean(st: Settings, env: Env, mark: string)
    requires Ready(st, env) && LineSafe(st.newDir) && (mark == "" || mark == "=")
    ensures var r := LibDirLine(st, env, mark);
      IsLine(r) && Latin1(r) && EndsWithNewline(r)
  {
    NewLibIs(st, env);
    NewLibWord(st, env);
    var d := NewLibPath(st);
    LineSafeConcat(d, "\\");
    LineSafeFrom(d + "\\", ToNative(env, d));
    var e := Escape(ToNative(env, d));
    LineSafeFrom(ToNative(env, d), e);
    LibDirOpenPlain();
    LineSafeConcat(LibDirOpen, mark);
    QuotedLineSafe(LibDirOpen + mark, e);
  }

  /** Every line patchFile writes is one well-formed line, and keeps the newline of the line it replaces. */
  lemma LaLineClean(st: Settings, env: Env, l: string)
    requires Ready(st, env) && LineSafe(st.newDir) && Plain(env, l)
    requires IsLine(l) && Latin1(l)
    ensures var r := LaLine(st, env, l);
      IsLine(r) && Latin1(r) && (EndsWithNewline(l) ==> EndsWithNewline(r))
  {
    var t := Trim(l);
    TrimmedLineSafe(l);
    if StartsWith(t, DepField) {
      var toks := DepTokens(t);
      TrimChars(l);
      DepTokensOf(t);
      forall k | 0 <= k < |toks|
        ensures LineSafe(toks[k]) && Plain(env, toks[k])
      {
        LineSafeFrom(t, toks[k]);
      }
      DepLineClean(st, env, toks);
    } else if StartsWith(t, LibDirField) && InOldLib(st, env, LibDirValue(t).1) {
      LibDirLineClean(st, env, LibDirValue(t).0);
    }
  }

  /** A name listed in lib is the file patchFile opens under the name lib/ + name. */
  lemma LibPathIs(st: Settings, env: Env, name: string)
    requires ValidEnv(env) && !IsAbsolute(FromNative(env, name))
    ensures LibPath(st, env, name) == QtPath(st, env, LibRel + name)
  {
    AbsFilePathNested(env, st.qtDir, "lib", name);
    assert LibRel == "lib" + "/";
    assert "lib" + "/" + name == LibRel + name;
  }

  /**
   * After a patch of a listed archive whose write went through, shouldPatch
   * no longer selects it, provided the new lib directory differs from the
   * old one.
   */
  lemma PatchFileIdempotent(st: Settings, env: Env, fs: FS, name: string)
    requires Ready(st, env) && LineSafe(st.newDir)
    requires !SamePath(env, NewLibDir(st), OldLib(st))
    requires !IsAbsolute(FromNative(env, name))
    requires Readable(fs, QtPath(st, env, LibRel + name)) && fs[QtPath(st, env, LibRel + name)].writable
    requires Plain(env, Decode(fs[QtPath(st, env, LibRel + name)].data))
    ensures !ShouldPatchSpec(st, env, PatchFileSpec(st, env, fs, LibRel + name).1, name)
  {
    var p := QtPath(st, env, LibRel + name);
    LibPathIs(st, env, name);
    var rw := Rewrite(st, env);
    var ls := LinesOf(fs[p]);
    forall k | 0 <= k < |ls|
      ensures IsLine(rw(ls[k])) && Latin1(rw(ls[k]))
      ensures EndsWithNewline(ls[k]) ==> EndsWithNewline(rw(ls[k]))
      ensures !Trigger(st, env)(rw(ls[k]))
    {
      LineLatin1(fs[p], k);
      assert Plain(env, ls[k]);
      LaLineClean(st, env, ls[k]);
      LaLineQuiet(st, env, ls[k]);
    }
    PatchQuiets(fs, p, rw, Trigger(st, env));
  }

  function Filters(st: Settings): seq<string>
  {
    if Major(st) == 5 then Qt5Filters else Qt4Filters
  }

  /** The test findFileToPatch applies to each listed name: Qt 4 skips Qt 5 archives. */
  function Keep(st: Settings, env: Env, fs: FS): string -> bool
  {
    n => !(Major(st) == 4 && StartsWith(n, "libQt5")) && ShouldPatchSpec(st, env, fs, n)
  }

  /** The files findFileToPatch returns. */
  function FindSpec(st: Settings, env: Env, fs: FS): (r: seq<string>)
    ensures StartsWith(st.crossSpec, "win") || !QtHasDir(st, env, "lib") ==> r == []
    ensures forall x :: x in r ==> StartsWith(x, LibRel) && ShouldPatchSpec(st, env, fs, x[|LibRel|..])
    ensures Major(st) == 4 ==> forall x :: x in r ==> StartsWith(x, LibRel) && !StartsWith(x[|LibRel|..], "libQt5")
  {
    if StartsWith(st.crossSpec, "win") || !QtHasDir(st, env, "lib") then []
    else Select(Listing(st, env, "lib", Filters(st)), Keep(st, env, fs), LibRel)
  }

  /** LaPatcher::findFileToPatch. */
  method FindFileToPatch(st: Settings, env: Env, fs: FS) returns (r: seq<string>)
    ensures r == FindSpec(st, env, fs)
  {
    if StartsWith(st.crossSpec, "win") || !QtHasDir(st, env, "lib") {
      return [];
    }
    var names := Listing(st, env, "lib", Filters(st));
    r := [];
    for i := 0 to |names|
      invariant r == Select(names[..i], Keep(st, env, fs), LibRel)
    {
      var f := names[i];
      SelectStep(names, Keep(st, env, fs), LibRel, i);
      if Major(st) == 4 && StartsWith(f, "libQt5") {
        continue;
      }
      var should := ShouldPatch(st, env, fs, f);
      if should {
        r := r + [LibRel + f];
      }
    }
    assert names[..|names|] == names;
  }

  /** An archive that has been patched is not found again. */
  lemma PatchedNotFound(st: Settings, env: Env, fs: FS, name: string)
    requires Ready(st, env) && LineSafe(st.newDir)
    requires !SamePath(env, NewLibDir(st), OldLib(st))
    requires !IsAbsolute(FromNative(env, name))
    requires Readable(fs, QtPath(st, env, LibRel + name)) && fs[QtPath(st, env, LibRel + name)].writable
    requires Plain(env, Decode(fs[QtPath(st, env, LibRel + name)].data))
    ensures LibRel + name !in FindSpec(st, env, PatchFileSpec(st, env, fs, LibRel + name).1)
  {
    PatchFileIdempotent(st, env, fs, name);
    assert (LibRel + name)[|LibRel|..] == name;
  }
}
