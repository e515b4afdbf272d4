/**
 * What the relocation engine learns before it patches anything
 * (patch.cpp): step 1 makes both directories absolute and finds qmake,
 * step 2 reads qmake's `-query` answer, and three small decisions follow
 * from the settings: whether the version is a supported one, whether the
 * old and new locations are the same directory, and whether either of
 * them holds whitespace.
 */
module Probe {
  import opened Wrappers
  import opened Text
  import opened Paths
  import opened Files
  import opened Settings

  // ---------------------------------------------------------------- step 1

  const Qmake := "qmake"
  const QmakeExe := "qmake.exe"
  const BinQmake := "bin/qmake"
  const BinQmakeExe := "bin/qmake.exe"
  const BinQmakePaths: seq<string> := [BinQmake, BinQmakeExe]
  const QmakePaths: seq<string> := [Qmake, QmakeExe]
  const DefaultQmake := Qmake
  const BinName := "bin"
  const BinPrefix := "bin/"

  const NoQtDir := "cannot find the Qt directory"
  const NoQmake := "cannot find qmake"
  const SpacedNewDir := "new directory with spaces"
  const SpacedOldDir := "old directory with spaces"

  /** QDir(dir).exists(rel): a file or a directory is there. */
  predicate ExistsIn(env: Env, fs: FS, dir: string, rel: string)
  {
    AbsFilePath(env, dir, rel) in fs || AbsFilePath(env, dir, rel) in env.dirs
  }

  /** The directory QDir::cdUp moves to. */
  function Parent(env: Env, dir: string): string
  {
    AbsDir(env, dir)
  }

  /** QDir::cdUp succeeds when the parent directory exists. */
  predicate CanCdUp(env: Env, dir: string)
  {
    Parent(env, dir) in env.dirs
  }

  /** Where the search for qmake stands: the Qt directory, the program, and whether qmake was found. */
  datatype Search = Search(dir: string, program: string, found: bool)

  /** The first search loop: each candidate under the directory in turn, the last one there winning. */
  function BinSearch(env: Env, fs: FS, dir: string, ps: seq<string>): (r: Search)
    ensures r.dir == dir
    ensures r.found <==> exists p :: p in ps && ExistsIn(env, fs, dir, p)
    ensures r.found ==> r.program in ps && ExistsIn(env, fs, dir, r.program)
    ensures !r.found ==> r.program == DefaultQmake
    ensures |ps| > 0 && ExistsIn(env, fs, dir, ps[|ps| - 1]) ==> r.program == ps[|ps| - 1]
  {
    if |ps| == 0 then Search(dir, DefaultQmake, false)
    else
      var s := BinSearch(env, fs, dir, ps[..|ps| - 1]);
      var p := ps[|ps| - 1];
      assert forall x :: x in ps <==> x in ps[..|ps| - 1] || x == p;
      if ExistsIn(env, fs, dir, p) then Search(dir, p, true) else s
  }

  /**
   * The second search loop as written: while the directory is named bin,
   * each name is looked up in the directory the loop has reached, which
   * after a successful cdUp is the parent of bin, and each hit moves up
   * once more.
   */
  function InBinAsWritten(env: Env, fs: FS, s: Search, ps: seq<string>): Search
  {
    if |ps| == 0 then s
    else AsWrittenStep(env, fs, InBinAsWritten(env, fs, s, ps[..|ps| - 1]), ps[|ps| - 1])
  }

  /** One turn of the second loop as written. */
  function AsWrittenStep(env: Env, fs: FS, t: Search, p: string): Search
  {
    if !ExistsIn(env, fs, t.dir, p) then t
    else if CanCdUp(env, t.dir) then Search(Parent(env, t.dir), BinPrefix + p, true)
    else t.(program := BinPrefix + p)
  }

  /** The second loop as written over two names is two turns. */
  lemma AsWrittenTwo(env: Env, fs: FS, s: Search, a: string, b: string)
    ensures InBinAsWritten(env, fs, s, [a, b]) == AsWrittenStep(env, fs, AsWrittenStep(env, fs, s, a), b)
  {
    assert [a, b][..1] == [a];
    assert [a][..0] == [];
    assert InBinAsWritten(env, fs, s, []) == s;
    assert InBinAsWritten(env, fs, s, [a]) == AsWrittenStep(env, fs, s, a);
  }

  /**
   * The second search loop with every name looked up in the bin directory
   * itself; a hit makes the parent of bin the Qt directory.
   */
  function InBin(env: Env, fs: FS, bin: string, s: Search, ps: seq<string>): (r: Search)
    requires s.dir == bin && !s.found
    ensures r.found <==> CanCdUp(env, bin) && exists p :: p in ps && ExistsIn(env, fs, bin, p)
    ensures r.found ==> r.dir == Parent(env, bin) && exists p :: p in ps && ExistsIn(env, fs, bin, p) && r.program == BinPrefix + p
    ensures !r.found ==> r.dir == bin
  {
    if |ps| == 0 then s
    else
      var t := InBin(env, fs, bin, s, ps[..|ps| - 1]);
      var p := ps[|ps| - 1];
      assert forall x :: x in ps <==> x in ps[..|ps| - 1] || x == p;
      if !ExistsIn(env, fs, bin, p) then t
      else if CanCdUp(env, bin) then Search(Parent(env, bin), BinPrefix + p, true)
      else t.(program := BinPrefix + p)
  }

  /** Where qmake is looked for: bin/ under the directory, then, for a directory named bin, the directory itself. */
  function Locate(env: Env, fs: FS, q: string): (r: Search)
    ensures r.found ==>
      (r.dir == q && r.program in BinQmakePaths && ExistsIn(env, fs, q, r.program))
      || (DirName(env, q) == BinName && r.dir == Parent(env, q)
          && exists p :: p in QmakePaths && ExistsIn(env, fs, q, p) && r.program == BinPrefix + p)
    ensures !r.found <==>
      (forall p :: p in BinQmakePaths ==> !ExistsIn(env, fs, q, p))
      && (DirName(env, q) != BinName || !CanCdUp(env, q) || forall p :: p in QmakePaths ==> !ExistsIn(env, fs, q, p))
  {
    var s := BinSearch(env, fs, q, BinQmakePaths);
    if !s.found && DirName(env, q) == BinName then InBin(env, fs, q, s, QmakePaths) else s
  }

  /**
   * Where qmake is looked for, as written. It is found in exactly the cases
   * the corrected search finds it, but after a climb out of bin the second
   * name is looked up beside bin, so the program may name a file found
   * there and the Qt directory may end up two levels above bin.
   */
  function LocateAsWritten(env: Env, fs: FS, q: string): (r: Search)
    ensures r.found ==>
      (r.dir == q && r.program in BinQmakePaths && ExistsIn(env, fs, q, r.program))
      || (DirName(env, q) == BinName && (r.dir == Parent(env, q) || r.dir == Parent(env, Parent(env, q)))
          && exists p :: (p in QmakePaths && r.program == BinPrefix + p
            && (ExistsIn(env, fs, q, p) || ExistsIn(env, fs, Parent(env, q), p))))
    ensures !r.found <==>
      (forall p :: p in BinQmakePaths ==> !ExistsIn(env, fs, q, p))
      && (DirName(env, q) != BinName || !CanCdUp(env, q) || forall p :: p in QmakePaths ==> !ExistsIn(env, fs, q, p))
    ensures !r.found ==> r.dir == q
  {
    var s := BinSearch(env, fs, q, BinQmakePaths);
    if !s.found && DirName(env, q) == BinName then
      InBinAsWrittenFinds(env, fs, q, s);
      InBinAsWritten(env, fs, s, QmakePaths)
    else s
  }

  /**
   * The second loop as written, started in bin, finds qmake exactly when
   * bin holds one of the names and has a parent; it then stands one or two
   * levels above bin, naming a file found in bin or beside it.
   */
  lemma InBinAsWrittenFinds(env: Env, fs: FS, bin: string, s: Search)
    requires s.dir == bin && !s.found
    ensures var r := InBinAsWritten(env, fs, s, QmakePaths);
      (r.found <==> CanCdUp(env, bin) && exists p :: p in QmakePaths && ExistsIn(env, fs, bin, p))
      && (!r.found ==> r.dir == bin)
      && (r.found ==>
            (r.dir == Parent(env, bin) || r.dir == Parent(env, Parent(env, bin)))
            && exists p :: (p in QmakePaths && r.program == BinPrefix + p
              && (ExistsIn(env, fs, bin, p) || ExistsIn(env, fs, Parent(env, bin), p))))
  {
    AsWrittenTwo(env, fs, s, Qmake, QmakeExe);
    assert QmakePaths[0] == Qmake && QmakePaths[1] == QmakeExe;
    assert forall p :: p in QmakePaths <==> p == Qmake || p == QmakeExe;
  }

  /** What step 1 settles: the Qt directory, the new directory, both absolute, and qmake's path under the Qt directory. */
  datatype Located = Located(qtDir: string, newDir: string, qmake: string)

  /** step1: the absolute directories and qmake, or the reason the process ends. */
  function Step1Spec(st: Settings, env: Env, fs: FS): Outcome<Located>
  {
    var newDir := AbsPath(env, st.newDir);
    if st.qtDir != [] && AbsPath(env, st.qtDir) !in env.dirs then Fatal(NoQtDir)
    else
      var s := LocateAsWritten(env, fs, AbsPath(env, st.qtDir));
      if !s.found then Fatal(NoQmake)
      else if HasWhitespace(newDir) then Fatal(SpacedNewDir)
      else Done(Located(s.dir, newDir, s.program))
  }

  /** The settings after step 1. */
  function Located1(st: Settings, l: Located): Settings
  {
    st.(qtDir := l.qtDir, newDir := l.newDir)
  }

  /** step1's first loop. */
  method SearchQtDir(env: Env, fs: FS, dir: string) returns (program: string, found: bool)
    ensures Search(dir, program, found) == BinSearch(env, fs, dir, BinQmakePaths)
  {
    found := false;
    program := DefaultQmake;
    var i := 0;
    while i < |BinQmakePaths|
      invariant 0 <= i <= |BinQmakePaths|
      invariant Search(dir, program, found) == BinSearch(env, fs, dir, BinQmakePaths[..i])
    {
      assert BinQmakePaths[..i + 1][..i] == BinQmakePaths[..i];
      if ExistsIn(env, fs, dir, BinQmakePaths[i]) {
        program := BinQmakePaths[i];
        found := true;
      }
      i := i + 1;
    }
    assert BinQmakePaths[..i] == BinQmakePaths;
  }

  /** step1's second loop: each name is looked up in the directory qtDir holds at that turn. */
  method SearchBinDir(env: Env, fs: FS, bin: string, program0: string) returns (qtDir: string, program: string, found: bool)
    ensures Search(qtDir, program, found) == InBinAsWritten(env, fs, Search(bin, program0, false), QmakePaths)
  {
    qtDir, program, found := bin, program0, false;
    var j := 0;
    while j < |QmakePaths|
      invariant 0 <= j <= |QmakePaths|
      invariant Search(qtDir, program, found) == InBinAsWritten(env, fs, Search(bin, program0, false), QmakePaths[..j])
    {
      assert QmakePaths[..j + 1][..j] == QmakePaths[..j];
      if ExistsIn(env, fs, qtDir, QmakePaths[j]) {
        program := BinPrefix + QmakePaths[j];
        if CanCdUp(env, qtDir) {
          qtDir := Parent(env, qtDir);
          found := true;
        }
      }
      j := j + 1;
    }
    assert QmakePaths[..j] == QmakePaths;
  }

  /** step1. */
  method Step1(st: Settings, env: Env, fs: FS) returns (r: Outcome<Located>)
    ensures r == Step1Spec(st, env, fs)
  {
    var newDir := AbsPath(env, st.newDir);
    if st.qtDir != [] && AbsPath(env, st.qtDir) !in env.dirs {
      return Fatal(NoQtDir);
    }
    var qtDir := AbsPath(env, st.qtDir);
    var program, found := SearchQtDir(env, fs, qtDir);
    if !found && DirName(env, qtDir) == BinName {
      qtDir, program, found := SearchBinDir(env, fs, qtDir, program);
    }
    if !found {
      return Fatal(NoQmake);
    }
    if HasWhitespace(newDir) {
      return Fatal(SpacedNewDir);
    }
    return Done(Located(qtDir, newDir, program));
  }

  /**
   * Step 1 ends the process exactly when the given Qt directory is missing,
   * when qmake is found neither in its bin nor, for a directory named bin,
   * in the directory itself, or when the new directory holds whitespace.
   */
  lemma Step1Fails(st: Settings, env: Env, fs: FS)
    ensures Step1Spec(st, env, fs).Fatal? <==>
      (st.qtDir != [] && AbsPath(env, st.qtDir) !in env.dirs)
      || HasWhitespace(AbsPath(env, st.newDir))
      || ((forall p :: p in BinQmakePaths ==> !ExistsIn(env, fs, AbsPath(env, st.qtDir), p))
          && (DirName(env, AbsPath(env, st.qtDir)) != BinName || !CanCdUp(env, AbsPath(env, st.qtDir))
              || forall p :: p in QmakePaths ==> !ExistsIn(env, fs, AbsPath(env, st.qtDir), p)))
  {
  }

  /**
   * When step 1 succeeds the new directory is absolute and free of
   * whitespace, and qmake is there: either as bin/qmake or bin/qmake.exe
   * under the Qt directory the user named, or, for a directory named bin,
   * as bin/qmake or bin/qmake.exe relative to its parent or grandparent,
   * which becomes the Qt directory, named after a file found in bin or
   * beside it.
   */
  lemma Step1Finds(st: Settings, env: Env, fs: FS)
    requires Step1Spec(st, env, fs).Done?
    ensures var l := Step1Spec(st, env, fs).value;
      var q := AbsPath(env, st.qtDir);
      l.newDir == AbsPath(env, st.newDir) && !HasWhitespace(l.newDir)
      && ((l.qtDir == q && l.qmake in BinQmakePaths && ExistsIn(env, fs, q, l.qmake))
          || (DirName(env, q) == BinName && (l.qtDir == Parent(env, q) || l.qtDir == Parent(env, Parent(env, q)))
              && exists p :: (p in QmakePaths && l.qmake == BinPrefix + p
                && (ExistsIn(env, fs, q, p) || ExistsIn(env, fs, Parent(env, q), p)))))
  {
  }

  /** Of bin/qmake and bin/qmake.exe, the later one found wins. */
  lemma Step1PrefersExe(st: Settings, env: Env, fs: FS)
    requires Step1Spec(st, env, fs).Done?
    requires ExistsIn(env, fs, AbsPath(env, st.qtDir), BinQmakeExe)
    ensures Step1Spec(st, env, fs).value.qmake == BinQmakeExe
  {
  }

  /** Reaching the parent of bin, as written, also looks up the second name there and may move up once more. */
  lemma InBinClimbsTwice(env: Env, fs: FS, bin: string)
    requires ExistsIn(env, fs, bin, Qmake) && CanCdUp(env, bin)
    requires ExistsIn(env, fs, Parent(env, bin), QmakeExe) && CanCdUp(env, Parent(env, bin))
    ensures InBinAsWritten(env, fs, Search(bin, DefaultQmake, false), QmakePaths)
      == Search(Parent(env, Parent(env, bin)), BinPrefix + QmakeExe, true)
  {
    AsWrittenTwo(env, fs, Search(bin, DefaultQmake, false), Qmake, QmakeExe);
  }

  /**
   * With qmake in bin and a file named qmake.exe beside bin, the corrected
   * search keeps the parent of bin and qmake, where the search as written
   * climbs to the grandparent and names qmake.exe.
   */
  lemma LocateAsWrittenDiffers(env: Env, fs: FS, bin: string)
    requires DirName(env, bin) == BinName
    requires forall p :: p in BinQmakePaths ==> !ExistsIn(env, fs, bin, p)
    requires ExistsIn(env, fs, bin, Qmake) && !ExistsIn(env, fs, bin, QmakeExe) && CanCdUp(env, bin)
    requires ExistsIn(env, fs, Parent(env, bin), QmakeExe) && CanCdUp(env, Parent(env, bin))
    ensures Locate(env, fs, bin) == Search(Parent(env, bin), BinPrefix + Qmake, true)
    ensures LocateAsWritten(env, fs, bin) == Search(Parent(env, Parent(env, bin)), BinPrefix + QmakeExe, true)
  {
    InBinClimbsTwice(env, fs, bin);
    var s := BinSearch(env, fs, bin, BinQmakePaths);
    assert !s.found && s == Search(bin, DefaultQmake, false);
    InBinFirstOnly(env, fs, bin, s, Qmake, QmakeExe);
  }

  /** The corrected second loop over two names when only the first is in bin. */
  lemma InBinFirstOnly(env: Env, fs: FS, bin: string, s: Search, a: string, b: string)
    requires s.dir == bin && !s.found
    requires ExistsIn(env, fs, bin, a) && !ExistsIn(env, fs, bin, b) && CanCdUp(env, bin)
    ensures InBin(env, fs, bin, s, [a, b]) == Search(Parent(env, bin), BinPrefix + a, true)
  {
    assert [a, b][..1] == [a];
    assert [a][..0] == [];
    assert InBin(env, fs, bin, s, [a]) == Search(Parent(env, bin), BinPrefix + a, true);
  }

  // ---------------------------------------------------------------- step 2

  const SpecKey := "QMAKE_SPEC"
  const XSpecKey := "QMAKE_XSPEC"
  const VersionKey := "QT_VERSION"
  const PrefixKey := "QT_INSTALL_PREFIX"

  /** The four keys step 2 reads are different words without ':'. */
  lemma KeysDistinct()
    ensures SpecKey != XSpecKey && SpecKey != VersionKey && SpecKey != PrefixKey
    ensures XSpecKey != VersionKey && XSpecKey != PrefixKey && VersionKey != PrefixKey
    ensures ':' !in SpecKey && ':' !in XSpecKey && ':' !in VersionKey && ':' !in PrefixKey
  {
    assert SpecKey[1] != VersionKey[1];
  }

  /** QTextStream::readLine: a line without its "\n" or "\r\n". */
  function StripEol(l: string): (r: string)
    ensures |r| <= |l| && r == l[..|r|]
  {
    if |l| >= 2 && l[|l| - 2..] == "\r\n" then l[..|l| - 2]
    else if |l| >= 1 && l[|l| - 1] == '\n' then l[..|l| - 1]
    else l
  }

  /** readLine drops exactly the line's "\n" or "\r\n". */
  lemma StripEolOf(body: string)
    ensures StripEol(body + "\r\n") == body
    ensures |body| == 0 || body[|body| - 1] != '\r' ==> StripEol(body + "\n") == body
  {
    assert (body + "\r\n")[|body|..] == "\r\n";
    if |body| > 0 {
      assert (body + "\n")[|body| - 1..] == [body[|body| - 1], '\n'];
    }
  }

  /** The lines readLine returns for a text. */
  function ReadLines(s: string): (r: seq<string>)
    ensures |r| == |SplitLines(s)|
    ensures forall k :: 0 <= k < |r| ==> r[k] == StripEol(SplitLines(s)[k])
  {
    var ls := SplitLines(s);
    seq(|ls|, k requires 0 <= k < |ls| => StripEol(ls[k]))
  }

  /** A line split at its first ':' into key and value; None without ':'. */
  function KeyValue(line: string): (r: Option<(string, string)>)
    ensures r.None? <==> ':' !in line
    ensures r.Some? ==> ':' !in r.value.0 && line == r.value.0 + ":" + r.value.1
  {
    var col := IndexOfChar(line, ':');
    if col == -1 then None
    else
      assert line == line[..col] + ":" + line[col + 1..];
      Some((line[..col], line[col + 1..]))
  }

  /** A key without ':' and any value read back from "key:value". */
  lemma KeyValueOf(key: string, value: string)
    requires ':' !in key
    ensures KeyValue(key + ":" + value) == Some((key, value))
  {
    var line := key + ":" + value;
    assert line == key + [':'] + value;
    IndexOfCharAfter(key, ':', value);
    assert line[..|key|] == key;
    assert line[|key| + 1..] == value;
  }

  /** The settings as step 2 leaves them, and the warnings it printed. */
  datatype Probed = Probed(st: Settings, warnings: seq<Warning>)

  /** The probe of one line of qmake's answer. */
  function ApplyLine(env: Env, p: Probed, line: string): (r: Probed)
    ensures r.st == p.st.(hostSpec := r.st.hostSpec, crossSpec := r.st.crossSpec, qtVersion := r.st.qtVersion, oldDir := r.st.oldDir)
    ensures |p.warnings| <= |r.warnings| <= |p.warnings| + 1 && r.warnings[..|p.warnings|] == p.warnings
  {
    match KeyValue(line)
    case None => p
    case Some((key, value)) =>
      if key == SpecKey then
        var w := if p.st.hostSpec != [] && !Contains(value, p.st.hostSpec) then [HostSpecMismatch(value, p.st.hostSpec)] else [];
        Probed(p.st.(hostSpec := value), p.warnings + w)
      else if key == XSpecKey then
        var w := if p.st.crossSpec != [] && !Contains(value, p.st.crossSpec) then [CrossSpecMismatch(value, p.st.crossSpec)] else [];
        Probed(p.st.(crossSpec := value), p.warnings + w)
      else if key == VersionKey then
        var w := if p.st.qtVersion != [] && value != p.st.qtVersion then [VersionMismatch(value, p.st.qtVersion)] else [];
        Probed(p.st.(qtVersion := value), p.warnings + w)
      else if key == PrefixKey then Probed(p.st.(oldDir := AbsPath(env, value)), p.warnings)
      else p
  }

  /** The probe of a sequence of lines, in order. */
  function ApplyLines(env: Env, p: Probed, ls: seq<string>): Probed
  {
    if |ls| == 0 then p else ApplyLine(env, ApplyLines(env, p, ls[..|ls| - 1]), ls[|ls| - 1])
  }

  /** step2's parsing of qmake's answer. */
  function ParseQuery(st: Settings, env: Env, answer: string): Probed
  {
    ApplyLines(env, Probed(st, []), ReadLines(answer))
  }

  /** step2: the probed settings, or the end of the process when the old directory holds whitespace. */
  function Step2Spec(st: Settings, env: Env, answer: string): (r: Outcome<Probed>)
    ensures r.Done? <==> !HasWhitespace(ParseQuery(st, env, answer).st.oldDir)
  {
    var p := ParseQuery(st, env, answer);
    if HasWhitespace(p.st.oldDir) then Fatal(SpacedOldDir) else Done(p)
  }

  lemma ApplyStep(env: Env, p: Probed, ls: seq<string>, i: int)
    requires 0 <= i < |ls|
    ensures ApplyLines(env, p, ls[..i + 1]) == ApplyLine(env, ApplyLines(env, p, ls[..i]), ls[i])
  {
    assert ls[..i + 1][..i] == ls[..i];
  }

  /** step2, from the captured answer on. */
  method Step2(st: Settings, env: Env, answer: string) returns (r: Outcome<Probed>)
    ensures r == Step2Spec(st, env, answer)
  {
    var ls := ReadLines(answer);
    var p := Probed(st, []);
    var i := 0;
    while i < |ls|
      invariant 0 <= i <= |ls|
      invariant p == ApplyLines(env, Probed(st, []), ls[..i])
    {
      ApplyStep(env, Probed(st, []), ls, i);
      var kv := KeyValue(ls[i]);
      if kv.Some? {
        var (key, value) := kv.value;
        if key == SpecKey {
          if p.st.hostSpec != [] && !Contains(value, p.st.hostSpec) {
            p := p.(warnings := p.warnings + [HostSpecMismatch(value, p.st.hostSpec)]);
          }
          p := p.(st := p.st.(hostSpec := value));
        } else if key == XSpecKey {
          if p.st.crossSpec != [] && !Contains(value, p.st.crossSpec) {
            p := p.(warnings := p.warnings + [CrossSpecMismatch(value, p.st.crossSpec)]);
          }
          p := p.(st := p.st.(crossSpec := value));
        } else if key == VersionKey {
          if p.st.qtVersion != [] && value != p.st.qtVersion {
            p := p.(warnings := p.warnings + [VersionMismatch(value, p.st.qtVersion)]);
          }
          p := p.(st := p.st.(qtVersion := value));
        } else if key == PrefixKey {
          p := p.(st := p.st.(oldDir := AbsPath(env, value)));
        }
      }
      i := i + 1;
    }
    assert ls[..i] == ls;
    if HasWhitespace(p.st.oldDir) {
      return Fatal(SpacedOldDir);
    }
    return Done(p);
  }

  /** The value of the last line with the given key, if any: an independent account of "the last one wins". */
  function LastValue(ls: seq<string>, key: string): Option<string>
  {
    if |ls| == 0 then None
    else
      var kv := KeyValue(ls[|ls| - 1]);
      if kv.Some? && kv.value.0 == key then Some(kv.value.1) else LastValue(ls[..|ls| - 1], key)
  }

  function Probe(ls: seq<string>, key: string, given: string): string
  {
    match LastValue(ls, key)
    case None => given
    case Some(v) => v
  }

  /**
   * Each of the four keys sets its setting to the value of its last line,
   * QT_INSTALL_PREFIX through the absolute path; a setting no line names
   * keeps its value, and no other setting changes.
   */
  lemma {:induction false} LastLineWins(env: Env, p: Probed, ls: seq<string>)
    ensures var r := ApplyLines(env, p, ls).st;
      r.hostSpec == Probe(ls, SpecKey, p.st.hostSpec)
      && r.crossSpec == Probe(ls, XSpecKey, p.st.crossSpec)
      && r.qtVersion == Probe(ls, VersionKey, p.st.qtVersion)
      && r.oldDir == (match LastValue(ls, PrefixKey) case None => p.st.oldDir case Some(v) => AbsPath(env, v))
      && r == p.st.(hostSpec := r.hostSpec, crossSpec := r.crossSpec, qtVersion := r.qtVersion, oldDir := r.oldDir)
  {
    if |ls| > 0 {
      LastLineWins(env, p, ls[..|ls| - 1]);
      LineFields(env, ApplyLines(env, p, ls[..|ls| - 1]), ls[|ls| - 1]);
    }
  }

  /** Which setting one line sets. */
  lemma LineFields(env: Env, p: Probed, line: string)
    ensures var r := ApplyLine(env, p, line).st;
      var kv := KeyValue(line);
      r.hostSpec == (if kv.Some? && kv.value.0 == SpecKey then kv.value.1 else p.st.hostSpec)
      && r.crossSpec == (if kv.Some? && kv.value.0 == XSpecKey then kv.value.1 else p.st.crossSpec)
      && r.qtVersion == (if kv.Some? && kv.value.0 == VersionKey then kv.value.1 else p.st.qtVersion)
      && r.oldDir == (if kv.Some? && kv.value.0 == PrefixKey then AbsPath(env, kv.value.1) else p.st.oldDir)
  {
    KeysDistinct();
  }

  /** A line without ':' changes nothing. */
  lemma NoColonIgnored(env: Env, p: Probed, line: string)
    requires ':' !in line
    ensures ApplyLine(env, p, line) == p
  {
  }

  /** A QMAKE_SPEC line warns exactly when a host mkspec was configured and the probed one does not contain it. */
  lemma HostSpecLine(env: Env, p: Probed, value: string)
    ensures var r := ApplyLine(env, p, SpecKey + ":" + value);
      r.st == p.st.(hostSpec := value)
      && (|r.warnings| == |p.warnings| + 1 <==> p.st.hostSpec != [] && !Contains(value, p.st.hostSpec))
      && (|r.warnings| == |p.warnings| + 1 ==> r.warnings[|p.warnings|] == HostSpecMismatch(value, p.st.hostSpec))
  {
    KeysDistinct();
    KeyValueOf(SpecKey, value);
  }

  /** A QMAKE_XSPEC line warns exactly when a cross mkspec was configured and the probed one does not contain it. */
  lemma CrossSpecLine(env: Env, p: Probed, value: string)
    ensures var r := ApplyLine(env, p, XSpecKey + ":" + value);
      r.st == p.st.(crossSpec := value)
      && (|r.warnings| == |p.warnings| + 1 <==> p.st.crossSpec != [] && !Contains(value, p.st.crossSpec))
      && (|r.warnings| == |p.warnings| + 1 ==> r.warnings[|p.warnings|] == CrossSpecMismatch(value, p.st.crossSpec))
  {
    KeysDistinct();
    KeyValueOf(XSpecKey, value);
  }

  /** A QT_VERSION line warns exactly when a version was configured and the probed one differs. */
  lemma VersionLine(env: Env, p: Probed, value: string)
    ensures var r := ApplyLine(env, p, VersionKey + ":" + value);
      r.st == p.st.(qtVersion := value)
      && (|r.warnings| == |p.warnings| + 1 <==> p.st.qtVersion != [] && value != p.st.qtVersion)
      && (|r.warnings| == |p.warnings| + 1 ==> r.warnings[|p.warnings|] == VersionMismatch(value, p.st.qtVersion))
  {
    KeysDistinct();
    KeyValueOf(VersionKey, value);
  }

  /** A QT_INSTALL_PREFIX line sets the old directory to the absolute path of its value and never warns. */
  lemma PrefixLine(env: Env, p: Probed, value: string)
    ensures ApplyLine(env, p, PrefixKey + ":" + value) == Probed(p.st.(oldDir := AbsPath(env, value)), p.warnings)
  {
    KeysDistinct();
    KeyValueOf(PrefixKey, value);
  }

  /** A value holding ':' is kept whole: only the first ':' separates key and value. */
  lemma ValueKeepsColons(env: Env, p: Probed, value: string)
    ensures ApplyLine(env, p, PrefixKey + ":" + value).st.oldDir == AbsPath(env, value)
  {
    PrefixLine(env, p, value);
  }

  // ------------------------------------------------------- the three checks

  /** How warnAboutUnsupportedQtVersion judges a version. */
  datatype Verdict =
    | Silent
    | NotSupported
    | Todo
    | CrossNotSupported
    | XPlatformNotSupported(spec: string)

  const Win32Prefix := "win32-"
  const AndroidPrefix := "android"

  /** The combinations the program is meant for: Qt 5.6 and later, host builds or Android cross builds; Qt 4.8 host builds for Windows. */
  predicate Supported(st: Settings)
  {
    (Major(st) == 5 && Minor(st) >= 6 && (st.crossSpec == st.hostSpec || StartsWith(st.crossSpec, AndroidPrefix)))
    || (Major(st) == 4 && Minor(st) == 8 && st.crossSpec == st.hostSpec && StartsWith(st.crossSpec, Win32Prefix))
  }

  /** warnAboutUnsupportedQtVersion: which warning it prints, if any. */
  function VersionVerdict(st: Settings): (r: Verdict)
    ensures r == Silent <==> Supported(st)
    ensures Major(st) < 4 || (Major(st) == 4 && Minor(st) != 8) || (Major(st) == 5 && Minor(st) < 6) ==> r == NotSupported
    ensures Major(st) >= 6 ==> r == Todo
    ensures r.XPlatformNotSupported? ==> Major(st) == 5 && r.spec == st.crossSpec
  {
    var major := Major(st);
    var minor := Minor(st);
    if major != 5 then
      if major < 4 then NotSupported
      else if major >= 6 then Todo
      else if minor != 8 then NotSupported
      else if st.crossSpec != st.hostSpec then CrossNotSupported
      else if !StartsWith(st.crossSpec, Win32Prefix) then Todo
      else Silent
    else
      if minor < 6 then NotSupported
      else if st.crossSpec != st.hostSpec && !StartsWith(st.crossSpec, AndroidPrefix) then XPlatformNotSupported(st.crossSpec)
      else Silent
  }

  /** An Android cross build of Qt 5.6 or later draws no warning, whatever the host mkspec. */
  lemma AndroidSupported(st: Settings)
    requires Major(st) == 5 && Minor(st) >= 6 && StartsWith(st.crossSpec, AndroidPrefix)
    ensures VersionVerdict(st) == Silent
  {
  }

  /** A Qt 4.8 cross build is refused even for a Windows mkspec. */
  lemma Qt4CrossRefused(st: Settings)
    requires Major(st) == 4 && Minor(st) == 8 && st.crossSpec != st.hostSpec
    ensures VersionVerdict(st) == CrossNotSupported
  {
  }

  /** shouldForce: the old and new locations name the same directory. */
  predicate ShouldForce(st: Settings, env: Env)
  {
    SamePath(env, st.oldDir, st.newDir)
  }

  /** Once both directories are absolute, as steps 1 and 2 leave them, the same directory means the same text. */
  lemma ForceIffEqual(st: Settings, env: Env)
    requires ValidEnv(env)
    requires AbsPath(env, st.oldDir) == st.oldDir && AbsPath(env, st.newDir) == st.newDir
    ensures ShouldForce(st, env) <==> st.oldDir == st.newDir
  {
  }

  /**
   * A new location written with a trailing '/' is the old directory all the
   * same: "-n /opt/qt/" against the prefix /opt/qt forces the patch.
   */
  lemma TrailingSlashForces(st: Settings, env: Env)
    requires IsAbsolute(st.oldDir) && '\\' !in st.oldDir && IsClean(env, st.oldDir)
    requires st.oldDir[|st.oldDir| - 1] != '/' && !IsRoot(env, st.oldDir + "/")
    requires st.newDir == st.oldDir + "/"
    ensures ShouldForce(st, env)
  {
    AbsPathTrailing(env, st.oldDir);
    AbsPathOfAbsolute(env, st.oldDir);
  }

  /** The same directory is the same whichever way round it is asked. */
  lemma ForceSymmetric(st: Settings, env: Env)
    ensures ShouldForce(st, env) <==> ShouldForce(st.(oldDir := st.newDir, newDir := st.oldDir), env)
  {
  }

  /** exitWhenSpacesExist: false when either directory holds whitespace, naming the first that does. */
  function ExitWhenSpacesExist(st: Settings): (r: (bool, Option<string>))
    ensures r.0 <==> !HasWhitespace(st.oldDir) && !HasWhitespace(st.newDir)
    ensures r.0 <==> r.1.None?
    ensures r.1.Some? ==> HasWhitespace(r.1.value) && (r.1.value == st.oldDir || r.1.value == st.newDir)
  {
    if HasWhitespace(st.oldDir) then (false, Some(st.oldDir))
    else if HasWhitespace(st.newDir) then (false, Some(st.newDir))
    else (true, None)
  }

  /**
   * Steps 1 and 2 already end the process on whitespace in either
   * directory, so once they are through the separate check always passes.
   */
  lemma SpacesAlreadyFatal(st: Settings, env: Env, fs: FS, answer: string)
    requires Step1Spec(st, env, fs).Done?
    requires Step2Spec(Located1(st, Step1Spec(st, env, fs).value), env, answer).Done?
    ensures ExitWhenSpacesExist(Step2Spec(Located1(st, Step1Spec(st, env, fs).value), env, answer).value.st).0
  {
    var st1 := Located1(st, Step1Spec(st, env, fs).value);
    var p := ParseQuery(st1, env, answer);
    Step1Finds(st, env, fs);
    LastLineWins(env, Probed(st1, []), ReadLines(answer));
    assert p.st.newDir == st1.newDir;
  }
}
