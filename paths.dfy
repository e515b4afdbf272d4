/**
 * A small, concrete stand-in for the Qt path helpers (QDir, QFileInfo) that
 * the relocation engine calls. Paths are strings; on Windows the native
 * separator is a backslash and Qt's internal form uses forward slashes.
 * A path is absolute when it starts with '/' or with a drive letter and ':'.
 * Symbolic links, case-insensitive comparison and the removal of "." and
 * ".." segments are not part of this model.
 */
module Paths {
  import opened Text

  datatype Platform = Unix | Windows

  /**
   * What the process sees around it: the platform, the current directory
   * (main makes the application directory current), the directories that
   * exist, and the listing of each directory under each set of name filters
   * (QDir::entryList with Files | NoSymLinks | NoDotAndDotDot | Readable).
   */
  datatype Env = Env(
    platform: Platform,
    cwd: string,
    dirs: set<string>,
    listings: map<(string, seq<string>), seq<string>>)

  /** QDir(dir).entryList(filters): the listing recorded for that directory and those filters, or none. */
  function Entries(env: Env, dir: string, filters: seq<string>): seq<string>
  {
    var key := (dir, filters);
    if key in env.listings then env.listings[key] else []
  }

  /** The current directory is an absolute path in Qt's internal form. */
  predicate ValidEnv(env: Env)
  {
    IsAbsolute(env.cwd) && '\\' !in env.cwd
  }

  /** QDir::fromNativeSeparators. */
  function FromNative(env: Env, s: string): (r: string)
    ensures |r| == |s|
    ensures env.platform == Windows ==> '\\' !in r
    ensures '\\' !in s ==> r == s
    ensures forall c :: c in r ==> c in s || c == '/'
    ensures '/' in s ==> '/' in r
  {
    if env.platform == Windows then
      var r := ReplaceChar(s, '\\', '/');
      assert '/' in s ==> '/' in r by {
        if '/' in s {
          var i :| 0 <= i < |s| && s[i] == '/';
          assert r[i] == '/';
        }
      }
      r
    else s
  }

  /** fromNativeSeparators keeps every character other than a backslash. */
  lemma FromNativeKeeps(env: Env, s: string, c: char)
    requires c != '\\' && c in s
    ensures c in FromNative(env, s)
  {
    var i :| 0 <= i < |s| && s[i] == c;
    assert FromNative(env, s)[i] == c;
  }

  /** QDir::toNativeSeparators. */
  function ToNative(env: Env, s: string): (r: string)
    ensures |r| == |s|
    ensures env.platform == Unix ==> r == s
    ensures forall c :: c in r ==> c in s || c == '\\'
  {
    if env.platform == Windows then ReplaceChar(s, '/', '\\') else s
  }

  /** Converting to native separators and back gives the internal form of the original. */
  lemma FromToNative(env: Env, s: string)
    ensures FromNative(env, ToNative(env, s)) == FromNative(env, s)
  {
  }

  /** fromNativeSeparators is idempotent. */
  lemma FromNativeTwice(env: Env, s: string)
    ensures FromNative(env, FromNative(env, s)) == FromNative(env, s)
  {
  }

  predicate IsDriveLetter(c: char)
  {
    'A' <= c <= 'Z' || 'a' <= c <= 'z'
  }

  /** QFileInfo::isAbsolute: a leading '/', or a drive letter followed by ':'. */
  predicate IsAbsolute(s: string)
  {
    (|s| > 0 && s[0] == '/') || (|s| >= 2 && IsDriveLetter(s[0]) && s[1] == ':')
  }

  /** The empty path and "." both name the current directory. */
  predicate NamesCwd(q: string)
  {
    |q| == 0 || (|q| == 1 && q[0] == '.')
  }

  /** The path QDir(p) stands for, in internal form: relative paths are resolved against the current directory. */
  function Resolved(env: Env, p: string): (r: string)
    ensures ValidEnv(env) ==> IsAbsolute(r)
    ensures ValidEnv(env) && env.platform == Windows ==> '\\' !in r
    ensures forall c :: c in r ==> c in p || c in env.cwd || c == '/'
  {
    var q := FromNative(env, p);
    if IsAbsolute(q) then q
    else if NamesCwd(q) then env.cwd
    else env.cwd + "/" + q
  }

  /**
   * QDir(p).absolutePath(): the resolved path, cleaned: no doubled '/' and
   * no trailing '/' outside a root.
   */
  function AbsPath(env: Env, p: string): (r: string)
    ensures ValidEnv(env) ==> IsAbsolute(r)
    ensures ValidEnv(env) && env.platform == Windows ==> '\\' !in r
    ensures forall c :: c in r ==> c in p || c in env.cwd || c == '/'
    ensures IsClean(env, r)
  {
    CleanSlashes(env, Resolved(env, p))
  }

  /** QDir(a) == QDir(b): both name the same absolute directory. */
  predicate SamePath(env: Env, a: string, b: string)
  {
    AbsPath(env, a) == AbsPath(env, b)
  }

  /** A clean absolute path without backslashes is its own absolute path. */
  lemma AbsPathOfAbsolute(env: Env, p: string)
    requires IsAbsolute(p) && '\\' !in p && IsClean(env, p)
    ensures AbsPath(env, p) == p
  {
  }

  /** Taking the absolute path twice changes nothing. */
  lemma AbsPathTwice(env: Env, p: string)
    requires ValidEnv(env)
    ensures AbsPath(env, AbsPath(env, p)) == AbsPath(env, p)
  {
    var r := AbsPath(env, p);
    assert FromNative(env, r) == r;
  }

  /**
   * A clean directory written with one more '/' at the end is the same
   * directory: "/opt/qt/" and "/opt/qt" name one directory.
   */
  lemma AbsPathTrailing(env: Env, d: string)
    requires IsAbsolute(d) && '\\' !in d && IsClean(env, d) && d[|d| - 1] != '/' && !IsRoot(env, d + "/")
    ensures AbsPath(env, d + "/") == d
  {
    var s := d + "/";
    assert '\\' !in s;
    assert FromNative(env, s) == s;
    assert s[0] == d[0];
    assert |d| >= 2 ==> s[1] == d[1];
    assert IsAbsolute(s);
    assert Resolved(env, s) == s;
    forall i | 0 <= i < |s| - 1
      ensures !(s[i] == '/' && s[i + 1] == '/')
    {
      if i < |d| - 1 {
        assert s[i] == d[i] && s[i + 1] == d[i + 1];
      } else {
        assert s[i] == d[|d| - 1];
      }
    }
    assert NoDoubleSlash(s);
    CollapseFacts(s);
    assert TrailingSlash(env, s);
    assert s[..|s| - 1] == d;
  }

  /** An absolute path written with native separators names the same directory. */
  lemma NativeSamePath(env: Env, p: string)
    requires ValidEnv(env) && AbsPath(env, p) == p
    ensures AbsPath(env, ToNative(env, p)) == p
  {
    FromToNative(env, p);
  }

  /** An absolute path, written with either kind of separator, names the directory it came from. */
  lemma AbsPathEitherForm(env: Env, p: string)
    ensures var a := AbsPath(env, p);
      ValidEnv(env) ==> AbsPath(env, FromNative(env, a)) == a && AbsPath(env, ToNative(env, a)) == a
  {
    if ValidEnv(env) {
      var a := AbsPath(env, p);
      AbsPathTwice(env, p);
      assert FromNative(env, a) == a;
      NativeSamePath(env, a);
    }
  }

  /** QDir(dir).absoluteFilePath(rel). */
  function AbsFilePath(env: Env, dir: string, rel: string): (r: string)
    ensures forall c :: c in r ==> c in dir || c in rel || c in env.cwd || c == '/'
  {
    var q := FromNative(env, rel);
    if IsAbsolute(q) then q else JoinDir(AbsPath(env, dir), q)
  }

  /** A directory path and a relative name, with one '/' between them: a root already ends with one. */
  function JoinDir(d: string, q: string): (r: string)
    ensures forall c :: c in r ==> c in d || c in q || c == '/'
  {
    if |d| > 0 && d[|d| - 1] == '/' then d + q else d + "/" + q
  }

  /** The position of the last '/', or -1. */
  function LastSlash(s: string): (r: int)
    ensures -1 <= r < |s|
    ensures r >= 0 ==> s[r] == '/'
    ensures forall j :: r < j < |s| ==> s[j] != '/'
  {
    if |s| == 0 then -1
    else if s[|s| - 1] == '/' then |s| - 1
    else LastSlash(s[..|s| - 1])
  }

  /** In dir + "/" + name, for a name without '/', the last '/' is the joining one. */
  lemma {:induction false} LastSlashJoin(a: string, name: string)
    requires '/' !in name
    ensures LastSlash(a + "/" + name) == |a|
    decreases |name|
  {
    var s := a + "/" + name;
    if |name| > 0 {
      var shorter := name[..|name| - 1];
      assert s[|s| - 1] == name[|name| - 1];
      assert s[..|s| - 1] == a + "/" + shorter;
      LastSlashJoin(a, shorter);
    }
  }

  /** QFileInfo(p).fileName(): the part after the last separator. */
  function FileName(env: Env, p: string): (r: string)
    ensures '/' !in r
    ensures env.platform == Windows ==> '\\' !in r
    ensures forall c :: c in r ==> c in p
  {
    var q := FromNative(env, p);
    var i := LastSlash(q);
    assert forall j :: i + 1 <= j < |q| ==> q[j] != '/';
    q[i + 1..]
  }

  /** QFileInfo(p).baseName(): the file name up to its first '.'. */
  function BaseName(env: Env, p: string): (r: string)
    ensures '/' !in r && '.' !in r
    ensures env.platform == Windows ==> '\\' !in r
    ensures forall c :: c in r ==> c in p
  {
    var n := FileName(env, p);
    var i := IndexOfChar(n, '.');
    if i == -1 then n else n[..i]
  }

  /**
   * QFileInfo(p).absolutePath(): the absolute directory that holds p. A
   * path that ends with a separator names a directory and an empty file
   * name, so that directory is the one returned.
   */
  function AbsDir(env: Env, p: string): string
  {
    var a := AbsPath(env, p);
    var q := FromNative(env, p);
    var i := LastSlash(a);
    if |q| > 0 && q[|q| - 1] == '/' then a
    else if i == 0 then "/" else if i < 0 then a else a[..i]
  }

  /** The absolute directory of a path is its own absolute path. */
  lemma AbsDirAbsolute(env: Env, p: string)
    requires ValidEnv(env)
    ensures AbsPath(env, AbsDir(env, p)) == AbsDir(env, p)
  {
    var a := AbsPath(env, p);
    var q := FromNative(env, p);
    var i := LastSlash(a);
    AbsPathTwice(env, p);
    if |q| > 0 && q[|q| - 1] == '/' {
    } else if i > 0 {
      assert FromNative(env, a) == a;
      ParentFixed(env, a, i);
    } else if i == 0 {
      assert FromNative(env, "/") == "/";
      assert IsClean(env, "/");
      CleanFixed(env, "/");
    }
  }

  /** The part of a clean absolute path before one of its separators is its own absolute path. */
  lemma ParentFixed(env: Env, a: string, i: int)
    requires IsAbsolute(a) && FromNative(env, a) == a && IsClean(env, a)
    requires 0 < i < |a| && a[i] == '/'
    ensures AbsPath(env, a[..i]) == a[..i]
  {
    var d := a[..i];
    assert d[0] == a[0];
    assert i >= 2 ==> d[1] == a[1];
    FromNativePrefix(env, a, i);
    assert a[i - 1] != '/';
    assert NoDoubleSlash(d) by {
      forall k | 0 <= k < |d| - 1
        ensures !(d[k] == '/' && d[k + 1] == '/')
      {
        assert d[k] == a[k] && d[k + 1] == a[k + 1];
      }
    }
    CleanFixed(env, d);
  }

  /** A clean absolute path in internal form is its own absolute path. */
  lemma CleanFixed(env: Env, d: string)
    requires IsAbsolute(d) && FromNative(env, d) == d && IsClean(env, d)
    ensures AbsPath(env, d) == d
  {
    assert Resolved(env, d) == d;
  }

  /** A prefix of a path in internal form is in internal form. */
  lemma FromNativePrefix(env: Env, a: string, i: int)
    requires FromNative(env, a) == a && 0 <= i <= |a|
    ensures FromNative(env, a[..i]) == a[..i]
  {
    if env.platform == Windows {
      assert '\\' !in a;
      assert forall c :: c in a[..i] ==> c in a;
    }
  }

  /**
   * The directory of dir + "/" + name, for a name without separators, is
   * dir: an empty name leaves dir + "/", which names dir itself.
   */
  lemma AbsDirJoin(env: Env, dir: string, name: string)
    requires ValidEnv(env) && IsAbsolute(dir) && '\\' !in dir && '/' !in name && '\\' !in name
    requires IsClean(env, dir) && dir[|dir| - 1] != '/' && !IsRoot(env, dir + "/")
    ensures AbsDir(env, dir + "/" + name) == dir
  {
    if |name| == 0 {
      assert dir + "/" + name == dir + "/";
      AbsPathTrailing(env, dir);
      assert FromNative(env, dir + "/") == dir + "/";
      return;
    }
    var s := dir + "/" + name;
    assert forall c :: c in s ==> c in dir || c in name || c == '/';
    assert FromNative(env, s) == s;
    assert s[0] == dir[0];
    assert |dir| >= 2 ==> s[1] == dir[1];
    JoinClean(env, dir, name);
    CleanFixed(env, s);
    LastSlashJoin(dir, name);
    assert s[|s| - 1] == name[|name| - 1];
    assert s[..|dir|] == dir;
  }

  /** A clean directory not ending in '/', joined with a non-empty name without '/', is clean. */
  lemma JoinClean(env: Env, dir: string, name: string)
    requires IsClean(env, dir) && |dir| > 0 && dir[|dir| - 1] != '/' && '/' !in name && |name| > 0
    ensures IsClean(env, dir + "/" + name)
  {
    var s := dir + "/" + name;
    forall i | 0 <= i < |s| - 1
      ensures !(s[i] == '/' && s[i + 1] == '/')
    {
      if i < |dir| - 1 {
        assert s[i] == dir[i] && s[i + 1] == dir[i + 1];
      } else if i == |dir| - 1 {
        assert s[i] == dir[i];
      } else {
        assert s[i + 1] == name[i - |dir|];
      }
    }
    assert s[|s| - 1] == name[|name| - 1];
  }

  /** QDir::dirName(): the last component of a directory path. */
  function DirName(env: Env, p: string): string
  {
    FileName(env, p)
  }

  /** QDir::cleanPath, restricted to separator normalisation: internal separators, no doubled '/', no trailing '/' outside a root. */
  function CleanPath(env: Env, p: string): (r: string)
  {
    CleanSlashes(env, FromNative(env, p))
  }

  /** No '/' directly follows another. */
  predicate NoDoubleSlash(s: string)
  {
    forall i :: 0 <= i < |s| - 1 ==> !(s[i] == '/' && s[i + 1] == '/')
  }

  /** The root "/" or, on Windows, a drive root such as "C:/". */
  predicate IsRoot(env: Env, s: string)
  {
    s == "/" || (env.platform == Windows && |s| == 3 && IsDriveLetter(s[0]) && s[1] == ':' && s[2] == '/')
  }

  /** A '/' at the end that QDir::cleanPath removes. */
  predicate TrailingSlash(env: Env, s: string)
  {
    |s| > 0 && s[|s| - 1] == '/' && !IsRoot(env, s)
  }

  /** What QDir::cleanPath leaves alone, as far as separators go. */
  predicate IsClean(env: Env, s: string)
  {
    NoDoubleSlash(s) && !TrailingSlash(env, s)
  }

  /**
   * The separator part of QDir::cleanPath on a path in internal form: runs
   * of '/' collapse to one, and a trailing '/' goes outside a root.
   */
  function CleanSlashes(env: Env, s: string): (r: string)
    ensures forall c :: c in r ==> c in s
    ensures IsAbsolute(s) ==> IsAbsolute(r)
    ensures IsClean(env, r)
    ensures IsClean(env, s) ==> r == s
  {
    var c := CollapseSlashes(s);
    CollapseFacts(s);
    if TrailingSlash(env, c) then
      assert |c| >= 2;
      assert c[|c| - 2] != '/';
      c[..|c| - 1]
    else c
  }

  /** Runs of '/' collapsed to one. */
  function CollapseSlashes(s: string): (r: string)
    ensures |r| <= |s|
    ensures |s| > 0 ==> |r| > 0 && r[0] == s[0]
  {
    if |s| >= 2 && s[0] == '/' && s[1] == '/' then CollapseSlashes(s[1..])
    else if |s| == 0 then []
    else [s[0]] + CollapseSlashes(s[1..])
  }

  /**
   * Collapsing leaves no doubled '/', adds no character, keeps the second
   * character after a first one that is not '/', and changes nothing in a
   * path that has no doubled '/'.
   */
  lemma {:induction false} CollapseFacts(s: string)
    ensures var r := CollapseSlashes(s);
      && (forall c :: c in r ==> c in s)
      && (|s| >= 2 && s[0] != '/' ==> |r| >= 2 && r[1] == s[1])
      && NoDoubleSlash(r)
      && (NoDoubleSlash(s) ==> r == s)
  {
    if |s| >= 2 && s[0] == '/' && s[1] == '/' {
      CollapseFacts(s[1..]);
      assert NoDoubleSlash(s) == false;
    } else if |s| > 0 {
      var t := CollapseSlashes(s[1..]);
      CollapseFacts(s[1..]);
      assert NoDoubleSlash(s) ==> NoDoubleSlash(s[1..]) by {
        if NoDoubleSlash(s) {
          forall i | 0 <= i < |s[1..]| - 1
            ensures !(s[1..][i] == '/' && s[1..][i + 1] == '/')
          {
            assert s[1..][i] == s[i + 1] && s[1..][i + 1] == s[i + 2];
          }
        }
      }
      var r := [s[0]] + t;
      forall i | 0 <= i < |r| - 1
        ensures !(r[i] == '/' && r[i + 1] == '/')
      {
        if i > 0 {
          assert r[i] == t[i - 1] && r[i + 1] == t[i];
        }
      }
    }
  }

  /** Cleaning a path that does not end in '/' keeps a separator it has. */
  lemma CleanKeepsSlash(env: Env, s: string, i: int)
    requires 0 <= i < |s| - 1 && s[i] == '/' && s[|s| - 1] != '/'
    ensures '/' in CleanSlashes(env, s)
  {
    CollapseKeepsSlash(s, i);
  }

  /** Collapsing runs of '/' keeps a '/' and the last character when that is not a '/'. */
  lemma {:induction false} CollapseKeepsSlash(s: string, i: int)
    requires 0 <= i < |s| - 1 && s[i] == '/' && s[|s| - 1] != '/'
    ensures var r := CollapseSlashes(s); '/' in r && |r| > 0 && r[|r| - 1] == s[|s| - 1]
  {
    if |s| >= 2 && s[0] == '/' && s[1] == '/' {
      CollapseKeepsSlash(s[1..], if i == 0 then 0 else i - 1);
    } else if i > 0 {
      CollapseKeepsSlash(s[1..], i - 1);
    } else {
      var t := CollapseSlashes(s[1..]);
      assert CollapseSlashes(s) == [s[0]] + t;
      CollapseKeepsLast(s[1..]);
    }
  }

  /** Collapsing runs of '/' keeps a last character that is not a '/'. */
  lemma {:induction false} CollapseKeepsLast(s: string)
    requires |s| > 0 && s[|s| - 1] != '/'
    ensures var r := CollapseSlashes(s); |r| > 0 && r[|r| - 1] == s[|s| - 1]
  {
    if |s| >= 2 {
      assert s[1..][|s[1..]| - 1] == s[|s| - 1];
      CollapseKeepsLast(s[1..]);
    }
  }

  /**
   * Going down into a relative directory and then resolving a name there is
   * resolving the joined relative path: QDir(dir).cd(a) followed by
   * absoluteFilePath(b) names the file dir/a/b.
   */
  lemma AbsFilePathNested(env: Env, dir: string, a: string, b: string)
    requires ValidEnv(env)
    requires |a| > 0 && !IsAbsolute(a) && '\\' !in a && a[0] != '/' && IsClean(env, a) && a[|a| - 1] != '/'
    requires !IsAbsolute(FromNative(env, b))
    ensures AbsFilePath(env, AbsFilePath(env, dir, a), b) == AbsFilePath(env, dir, a + "/" + b)
  {
    var d := AbsPath(env, dir);
    var inner := JoinDir(d, a);
    assert FromNative(env, a) == a;
    assert AbsFilePath(env, dir, a) == inner;
    assert FromNative(env, d) == d by {
      AbsPathTwice(env, dir);
    }
    JoinDirFixed(env, d, a);
    var qb := FromNative(env, b);
    var joined := a + "/" + b;
    FromNativeJoin(env, a, b);
    var s := a + "/" + qb;
    assert s[0] == a[0];
    assert |a| >= 2 ==> s[1] == a[1];
    assert |a| == 1 ==> s[1] == '/';
    assert !IsAbsolute(s);
    assert AbsFilePath(env, inner, b) == inner + "/" + qb;
    assert AbsFilePath(env, dir, joined) == JoinDir(d, s);
    JoinDirAppend(d, a, qb);
  }

  /** A clean absolute directory joined with a clean relative path is its own absolute path, and ends as the relative path does. */
  lemma JoinDirFixed(env: Env, d: string, a: string)
    requires IsAbsolute(d) && FromNative(env, d) == d && IsClean(env, d)
    requires |a| > 0 && '\\' !in a && a[0] != '/' && IsClean(env, a) && a[|a| - 1] != '/'
    ensures AbsPath(env, JoinDir(d, a)) == JoinDir(d, a)
    ensures JoinDir(d, a)[|JoinDir(d, a)| - 1] != '/'
  {
    var inner := JoinDir(d, a);
    assert inner[0] == d[0];
    assert |d| >= 2 ==> inner[1] == d[1];
    assert FromNative(env, inner) == inner by {
      if env.platform == Windows {
        assert '\\' !in d;
        assert forall c :: c in inner ==> c in d || c in a || c == '/';
      }
    }
    JoinDirClean(env, d, a);
    CleanFixed(env, inner);
    assert inner[|inner| - 1] == a[|a| - 1];
  }

  /** A path without backslashes, '/', then any path: only the last part changes to internal form. */
  lemma FromNativeJoin(env: Env, a: string, b: string)
    requires '\\' !in a
    ensures FromNative(env, a + "/" + b) == a + "/" + FromNative(env, b)
  {
    if env.platform == Windows {
      var s := a + "/" + b;
      var r := FromNative(env, s);
      var t := a + "/" + FromNative(env, b);
      forall i | 0 <= i < |s|
        ensures r[i] == t[i]
      {
        if i < |a| {
          assert s[i] == a[i] && t[i] == a[i];
        } else if i > |a| {
          assert s[i] == b[i - |a| - 1] && t[i] == FromNative(env, b)[i - |a| - 1];
        }
      }
    }
  }

  /** Joining a longer relative path is joining its first part and then the rest. */
  lemma JoinDirAppend(d: string, a: string, q: string)
    requires |a| > 0
    ensures JoinDir(d, a + "/" + q) == JoinDir(d, a) + "/" + q
  {
  }

  /**
   * QDir(d + "/" + a).absolutePath() for a clean absolute directory d and a
   * clean relative path a is d and a joined by one separator: a root such
   * as "/" does not gain a second one.
   */
  lemma AbsPathJoin(env: Env, d: string, a: string)
    requires IsAbsolute(d) && '\\' !in d && IsClean(env, d)
    requires |a| > 0 && '\\' !in a && a[0] != '/' && IsClean(env, a) && a[|a| - 1] != '/'
    ensures AbsPath(env, d + "/" + a) == JoinDir(d, a)
  {
    var s := d + "/" + a;
    assert forall c :: c in s ==> c in d || c in a || c == '/';
    assert FromNative(env, s) == s;
    assert s[0] == d[0];
    assert |d| >= 2 ==> s[1] == d[1];
    assert Resolved(env, s) == s;
    CleanJoin(env, d, a);
  }

  /** Cleaning a clean directory, '/', and a clean relative path gives the two joined by one separator. */
  lemma CleanJoin(env: Env, d: string, a: string)
    requires |d| > 0 && IsClean(env, d)
    requires |a| > 0 && a[0] != '/' && IsClean(env, a) && a[|a| - 1] != '/'
    ensures CleanSlashes(env, d + "/" + a) == JoinDir(d, a)
  {
    JoinDirClean(env, d, a);
    if d[|d| - 1] == '/' {
      CollapseJoin(d, a);
      assert JoinDir(d, a) == d + a;
    } else {
      assert JoinDir(d, a) == d + "/" + a;
    }
  }

  /** One relative path joined to two directories that differ gives two different paths. */
  lemma JoinDirsDiffer(a: string, b: string, q: string)
    requires JoinDir(a, "") != JoinDir(b, "")
    ensures JoinDir(a, q) != JoinDir(b, q)
  {
    var x, y := JoinDir(a, ""), JoinDir(b, "");
    assert JoinDir(a, q) == x + q by {
      assert x + q == if |a| > 0 && a[|a| - 1] == '/' then a + q else a + "/" + q;
    }
    assert JoinDir(b, q) == y + q by {
      assert y + q == if |b| > 0 && b[|b| - 1] == '/' then b + q else b + "/" + q;
    }
    if |x| == |y| {
      assert (x + q)[..|x|] == x && (y + q)[..|y|] == y;
    }
  }

  /** A directory joined with a relative path that is not clean is not clean. */
  lemma JoinDirUnclean(env: Env, d: string, a: string)
    requires |d| > 0 && |a| > 0 && a[0] != '/' && !IsClean(env, a)
    ensures !IsClean(env, JoinDir(d, a))
  {
    var s := JoinDir(d, a);
    var k := |s| - |a|;
    assert s[k..] == a;
    if !NoDoubleSlash(a) {
      var i :| 0 <= i < |a| - 1 && a[i] == '/' && a[i + 1] == '/';
      assert s[k + i] == a[i] && s[k + i + 1] == a[i + 1];
    } else {
      assert |a| >= 2 && a[|a| - 1] == '/';
      assert s[|s| - 1] == '/';
      if |s| == 3 {
        assert d == "/" && s[0] == '/';
      }
    }
  }

  /** Collapsing the doubled separator between a directory ending in '/' and a relative path. */
  lemma {:induction false} CollapseJoin(d: string, a: string)
    requires |d| > 0 && d[|d| - 1] == '/' && NoDoubleSlash(d)
    requires |a| > 0 && a[0] != '/' && NoDoubleSlash(a)
    ensures CollapseSlashes(d + "/" + a) == d + a
  {
    var s := d + "/" + a;
    if |d| == 1 {
      var t := d + a;
      assert s[1..] == t;
      CollapseFacts(t);
      forall i | 0 <= i < |t| - 1
        ensures !(t[i] == '/' && t[i + 1] == '/')
      {
        if i > 0 {
          assert t[i] == a[i - 1] && t[i + 1] == a[i];
        }
      }
    } else {
      assert s[0] == d[0] && s[1] == d[1];
      assert !(d[0] == '/' && d[1] == '/');
      assert s[1..] == d[1..] + "/" + a;
      assert NoDoubleSlash(d[1..]) by {
        forall i | 0 <= i < |d[1..]| - 1
          ensures !(d[1..][i] == '/' && d[1..][i + 1] == '/')
        {
          assert d[1..][i] == d[i + 1] && d[1..][i + 1] == d[i + 2];
        }
      }
      CollapseJoin(d[1..], a);
      assert d + a == [d[0]] + (d[1..] + a);
    }
  }

  /** A clean directory joined with a clean relative path is clean. */
  lemma JoinDirClean(env: Env, d: string, a: string)
    requires IsClean(env, d) && |d| > 0 && |a| > 0 && a[0] != '/' && IsClean(env, a) && a[|a| - 1] != '/'
    ensures IsClean(env, JoinDir(d, a))
  {
    var s := JoinDir(d, a);
    var k := if d[|d| - 1] == '/' then |d| else |d| + 1;
    assert s[k..] == a;
    forall i | 0 <= i < |s| - 1
      ensures !(s[i] == '/' && s[i + 1] == '/')
    {
      if i + 1 < |d| {
        assert s[i] == d[i] && s[i + 1] == d[i + 1];
      } else if i >= k {
        assert s[i] == a[i - k] && s[i + 1] == a[i + 1 - k];
      } else if i + 1 == k {
        assert s[i + 1] == a[0];
      } else {
        assert i == |d| - 1 && k == |d| + 1;
        assert s[i] == d[|d| - 1];
      }
    }
    assert s[|s| - 1] == a[|a| - 1];
  }

  /** "../" written n times. */
  function Ups(n: nat): (r: string)
    ensures |r| == 3 * n
    ensures n > 0 ==> r[..2] == ".."
  {
    if n == 0 then "" else "../" + Ups(n - 1)
  }

  /** The parts of a path between separators, empty parts skipped. */
  function Components(s: string): seq<string>
  {
    SplitSkipEmpty(s, '/')
  }

  /** How many leading components two paths share. */
  function CommonPrefix(a: seq<string>, b: seq<string>): (n: nat)
    ensures n <= |a| && n <= |b|
    ensures a[..n] == b[..n]
    ensures n < |a| && n < |b| ==> a[n] != b[n]
  {
    if |a| == 0 || |b| == 0 || a[0] != b[0] then 0
    else
      var k := CommonPrefix(a[1..], b[1..]);
      assert a[..k + 1] == [a[0]] + a[1..][..k];
      assert b[..k + 1] == [b[0]] + b[1..][..k];
      k + 1
  }

  /**
   * QDir(dir).relativeFilePath(file): a relative path is returned as it is;
   * otherwise one ".." for every component of dir past the shared ones, then
   * the rest of file, or "." when nothing is left.
   */
  function RelativeFilePath(env: Env, dir: string, file: string): string
  {
    RelativeOf(CleanPath(env, AbsPath(env, dir)), CleanPath(env, file))
  }

  /** The path of the cleaned file f relative to the cleaned directory d. */
  function RelativeOf(d: string, f: string): string
  {
    if !IsAbsolute(f) || !IsAbsolute(d) then f
    else
      var de, fe := Components(d), Components(f);
      var i := CommonPrefix(de, fe);
      var r := Ups(|de| - i) + Join(fe[i..], '/');
      if r == "" then "." else r
  }

  /** No component contains "..". */
  predicate NoDotDot(parts: seq<string>)
  {
    forall k :: 0 <= k < |parts| ==> !Contains(parts[k], "..")
  }

  /** Two paths free of "..", joined by '/', are free of "..". */
  lemma JoinedNoDotDot(a: string, b: string)
    requires !Contains(a, "..") && !Contains(b, "..")
    ensures !Contains(a + "/" + b, "..")
  {
    var s := a + "/" + b;
    assert s[|a|] == '/';
    if Contains(s, "..") {
      ContainsWitness(s, "..");
      var i: nat :| OccursAt(s, "..", i);
      assert s[i] == '.' && s[i + 1] == '.' by {
        assert s[i..i + 2][0] == s[i] && s[i..i + 2][1] == s[i + 1];
      }
      if i + 2 <= |a| {
        assert a[i..i + 2] == s[i..i + 2];
        ContainsAt(a, "..", i);
      } else if i >= |a| + 1 {
        assert b[i - |a| - 1..i - |a| + 1] == s[i..i + 2];
        ContainsAt(b, "..", i - |a| - 1);
      }
    }
  }

  /** Joining parts free of ".." with '/' gives a path free of "..". */
  lemma {:induction false} JoinNoDotDot(parts: seq<string>)
    requires NoDotDot(parts)
    ensures !Contains(Join(parts, '/'), "..")
  {
    if |parts| > 1 {
      JoinNoDotDot(parts[1..]);
      JoinedNoDotDot(parts[0], Join(parts[1..], '/'));
    } else if |parts| == 0 {
      assert !Contains("", "..");
    }
  }

  /**
   * A file whose components continue those of the directory, with no ".."
   * among the rest, is named relative to it by the rest alone.
   */
  lemma RelativeInside(env: Env, dir: string, file: string, rest: seq<string>)
    requires IsAbsolute(CleanPath(env, AbsPath(env, dir))) && IsAbsolute(CleanPath(env, file))
    requires Components(CleanPath(env, file)) == Components(CleanPath(env, AbsPath(env, dir))) + rest
    requires NoDotDot(rest)
    ensures RelativeFilePath(env, dir, file) == if rest == [] then "." else Join(rest, '/')
    ensures !Contains(RelativeFilePath(env, dir, file), "..")
  {
    RelativeOfInside(CleanPath(env, AbsPath(env, dir)), CleanPath(env, file), rest);
  }

  /** A file whose components extend the directory's by rest is named by rest joined, without "..". */
  lemma RelativeOfInside(d: string, f: string, rest: seq<string>)
    requires IsAbsolute(d) && IsAbsolute(f) && Components(f) == Components(d) + rest && NoDotDot(rest)
    ensures RelativeOf(d, f) == if rest == [] then "." else Join(rest, '/')
    ensures !Contains(RelativeOf(d, f), "..")
  {
    var de := Components(d);
    var fe := Components(f);
    var i := CommonPrefix(de, fe);
    assert fe[..|de|] == de;
    assert i == |de|;
    assert fe[i..] == rest;
    JoinNoDotDot(rest);
    if rest == [] {
      assert !Contains(".", "..");
    } else {
      assert Join(rest, '/') != "" by {
        if |rest| > 1 {
          assert |Join(rest, '/')| >= |rest[0]| + 1;
        }
      }
    }
  }

  /** Climbing out of a directory whose components are not all shared starts with "..". */
  lemma Climbs(de: seq<string>, fe: seq<string>)
    requires !(de <= fe)
    ensures var i := CommonPrefix(de, fe);
      Contains(Ups(|de| - i) + Join(fe[i..], '/'), "..") && Ups(|de| - i) + Join(fe[i..], '/') != ""
  {
    var i := CommonPrefix(de, fe);
    assert de[..i] == fe[..i] && fe[..i] <= fe;
    assert de[..i] != de;
    var r := Ups(|de| - i) + Join(fe[i..], '/');
    assert r[..2] == Ups(|de| - i)[..2];
    assert OccursAt(r, "..", 0);
    ContainsAt(r, "..", 0);
  }

  /** A file outside the directory is named relative to it by a path that climbs with "..". */
  lemma RelativeOutside(env: Env, dir: string, file: string)
    requires IsAbsolute(CleanPath(env, AbsPath(env, dir))) && IsAbsolute(CleanPath(env, file))
    requires !(Components(CleanPath(env, AbsPath(env, dir))) <= Components(CleanPath(env, file)))
    ensures Contains(RelativeFilePath(env, dir, file), "..")
  {
    RelativeOfOutside(CleanPath(env, AbsPath(env, dir)), CleanPath(env, file));
  }

  /** A file whose components do not extend the directory's is named by a path that climbs with "..". */
  lemma RelativeOfOutside(d: string, f: string)
    requires IsAbsolute(d) && IsAbsolute(f) && !(Components(d) <= Components(f))
    ensures Contains(RelativeOf(d, f), "..")
  {
    Climbs(Components(d), Components(f));
  }
}
