/**
 * The files the relocation engine reads and writes. The file system is a
 * map from absolute path to a file: its bytes and the two permission bits
 * that decide whether QFile::open succeeds for reading or for writing.
 * Text files are decoded byte by byte (Latin-1) and cut into lines the way
 * QIODevice::readLine delivers them, each with its '\n'.
 */
module Files {
  import opened Text

  type Byte = bv8
  type Bytes = seq<Byte>

  datatype File = File(data: Bytes, readable: bool, writable: bool)

  type FS = map<string, File>

  /** QFile::exists() && QFile::open(QIODevice::ReadOnly). */
  predicate Readable(fs: FS, p: string)
  {
    p in fs && fs[p].readable
  }

  /**
   * QFile::copy(src, dst): copies contents and permissions, and never
   * overwrites: it fails when src cannot be read or dst already exists.
   */
  function Copy(fs: FS, src: string, dst: string): (bool, FS)
  {
    if Readable(fs, src) && dst !in fs then (true, fs[dst := fs[src]]) else (false, fs)
  }

  /** An existing destination is never touched by a copy. */
  lemma CopyNeverOverwrites(fs: FS, src: string, dst: string)
    requires dst in fs
    ensures Copy(fs, src, dst) == (false, fs)
  {
  }

  /** A successful copy adds exactly dst, holding the bytes of src. */
  lemma CopyAddsOnlyDst(fs: FS, src: string, dst: string)
    ensures var (ok, fs') := Copy(fs, src, dst);
      ok <==> Readable(fs, src) && dst !in fs
    ensures var (ok, fs') := Copy(fs, src, dst);
      ok ==> dst in fs' && fs'[dst].data == fs[src].data && fs'.Keys == fs.Keys + {dst}
    ensures var (ok, fs') := Copy(fs, src, dst);
      forall k :: k in fs ==> k in fs' && fs'[k] == fs[k]
  {
  }

  /**
   * QFile::open(WriteOnly | Truncate) followed by write: refused for an
   * existing file without write permission, otherwise the file (created if
   * missing) holds exactly the new bytes.
   */
  function Write(fs: FS, p: string, data: Bytes): (bool, FS)
  {
    if p in fs && !fs[p].writable then (false, fs)
    else (true, fs[p := File(data, if p in fs then fs[p].readable else true, true)])
  }

  /** QDir::remove. */
  function Remove(fs: FS, p: string): FS
  {
    fs - {p}
  }

  /** QDir::removeRecursively: every file below dir disappears. */
  function RemoveTree(fs: FS, dir: string): (r: FS)
    ensures forall k :: k in r <==> k in fs && !StartsWith(k, dir + "/")
    ensures forall k :: k in r ==> r[k] == fs[k]
  {
    map k | k in fs && !StartsWith(k, dir + "/") :: fs[k]
  }

  /** The file system the imperative parts update in place. */
  class Disk {
    var files: FS

    constructor (fs: FS)
      ensures files == fs
    {
      files := fs;
    }
  }

  /** Characters that survive a round trip through one byte. */
  predicate Latin1(s: string)
  {
    forall c :: c in s ==> (c as int) < 256
  }

  /** Bytes read as text, one character per byte. */
  function Decode(b: Bytes): (s: string)
    ensures |s| == |b| && Latin1(s)
  {
    seq(|b|, i requires 0 <= i < |b| => (b[i] as int) as char)
  }

  /** Text written as bytes, one byte per character. */
  function Encode(s: string): (b: Bytes)
    ensures |b| == |s|
  {
    seq(|s|, i requires 0 <= i < |s| => ((s[i] as int) % 256) as bv8)
  }

  lemma DecodeEncode(s: string)
    requires Latin1(s)
    ensures Decode(Encode(s)) == s
  {
    var b := Encode(s);
    forall i | 0 <= i < |s|
      ensures Decode(b)[i] == s[i]
    {
      assert s[i] in s;
      assert (s[i] as int) % 256 == s[i] as int;
    }
  }

  lemma EncodeDecode(b: Bytes)
    ensures Encode(Decode(b)) == b
  {
    var s := Decode(b);
    forall i | 0 <= i < |b|
      ensures Encode(s)[i] == b[i]
    {
      ByteRoundTrip(b[i]);
    }
  }

  /** A byte read as a character and written back is the same byte. */
  lemma ByteRoundTrip(x: Byte)
    ensures (((x as int) as char as int) % 256) as bv8 == x
  {
    assert (x as int) as char as int == x as int;
    assert (x as int) % 256 == x as int;
  }

  lemma EncodeAppend(s: string, t: string)
    ensures Encode(s + t) == Encode(s) + Encode(t)
  {
    assert forall i :: 0 <= i < |s| ==> (s + t)[i] == s[i];
    assert forall i :: |s| <= i < |s| + |t| ==> (s + t)[i] == t[i - |s|];
  }

  lemma Latin1Append(s: string, t: string)
    requires Latin1(s) && Latin1(t)
    ensures Latin1(s + t)
  {
  }

  lemma {:induction false} Latin1Concat(ls: seq<string>)
    requires forall k :: 0 <= k < |ls| ==> Latin1(ls[k])
    ensures Latin1(Concat(ls))
  {
    if |ls| > 0 {
      Latin1Concat(ls[1..]);
      Latin1Append(ls[0], Concat(ls[1..]));
    }
  }

  /** Text that fits inside one line of a file: no newline, one byte per character. */
  predicate LineSafe(s: string)
  {
    '\n' !in s && Latin1(s)
  }

  /** Printable ASCII text: every character from ' ' to '~'. */
  predicate Printable(s: string)
  {
    forall c :: c in s ==> ' ' <= c <= '~'
  }

  /** Printable text fits in a line. */
  lemma PrintableLineSafe(s: string)
    requires Printable(s)
    ensures LineSafe(s)
  {
  }

  /** Text made only of characters of a text that fits in a line fits in a line too. */
  lemma LineSafeFrom(s: string, r: string)
    requires LineSafe(s) && forall c :: c in r ==> c in s
    ensures LineSafe(r)
  {
  }

  lemma LineSafeConcat(a: string, b: string)
    requires LineSafe(a) && LineSafe(b)
    ensures LineSafe(a + b)
  {
  }

  /** Parts that fit in a line, joined by a separator that does, fit in a line. */
  lemma {:induction false} JoinLineSafe(parts: seq<string>, c: char)
    requires forall k :: 0 <= k < |parts| ==> LineSafe(parts[k])
    requires LineSafe([c])
    ensures LineSafe(Join(parts, c))
  {
    if |parts| > 1 {
      JoinLineSafe(parts[1..], c);
      LineSafeConcat(parts[0], [c]);
      LineSafeConcat(parts[0] + [c], Join(parts[1..], c));
    }
  }

  predicate EndsWithNewline(l: string)
  {
    |l| > 0 && l[|l| - 1] == '\n'
  }

  /** A line as readLine returns it: not empty, with a '\n' at most at its end. */
  predicate IsLine(l: string)
  {
    |l| > 0 && '\n' !in l[..|l| - 1]
  }

  function Concat(ls: seq<string>): string
  {
    if |ls| == 0 then "" else ls[0] + Concat(ls[1..])
  }

  lemma {:induction false} ConcatSnoc(ls: seq<string>, l: string)
    ensures Concat(ls + [l]) == Concat(ls) + l
  {
    if |ls| > 0 {
      assert (ls + [l])[1..] == ls[1..] + [l];
      ConcatSnoc(ls[1..], l);
    }
  }

  /** The lines of a text: every one but the last ends with '\n'. */
  function SplitLines(s: string): (r: seq<string>)
    ensures forall k :: 0 <= k < |r| ==> IsLine(r[k])
    ensures forall k :: 0 <= k < |r| - 1 ==> EndsWithNewline(r[k])
    ensures forall k, c :: 0 <= k < |r| && c in r[k] ==> c in s
    decreases |s|
  {
    if |s| == 0 then []
    else
      var i := IndexOfChar(s, '\n');
      if i == -1 then [s]
      else
        var rest := SplitLines(s[i + 1..]);
        assert forall c :: c in s[i + 1..] ==> c in s;
        assert forall c :: c in s[..i + 1] ==> c in s;
        [s[..i + 1]] + rest
  }

  /** Reading a text line by line loses nothing. */
  lemma {:induction false} ConcatSplitLines(s: string)
    ensures Concat(SplitLines(s)) == s
    decreases |s|
  {
    if |s| > 0 {
      var i := IndexOfChar(s, '\n');
      if i != -1 {
        ConcatSplitLines(s[i + 1..]);
        assert s == s[..i + 1] + s[i + 1..];
      }
    }
  }

  /** Well-formed lines written one after another are read back as the same lines. */
  lemma {:induction false} SplitLinesConcat(ls: seq<string>)
    requires forall k :: 0 <= k < |ls| ==> IsLine(ls[k])
    requires forall k :: 0 <= k < |ls| - 1 ==> EndsWithNewline(ls[k])
    ensures SplitLines(Concat(ls)) == ls
  {
    if |ls| > 0 {
      var a := ls[0];
      assert Concat(ls) == a + Concat(ls[1..]);
      if EndsWithNewline(a) {
        SplitLinesHead(a, Concat(ls[1..]));
        SplitLinesConcat(ls[1..]);
      } else {
        assert |ls| == 1;
        assert Concat(ls[1..]) == "";
        assert a + "" == a;
        assert '\n' !in a;
      }
    }
  }

  /** A line ending in '\n' is read first, then the rest. */
  lemma SplitLinesHead(a: string, rest: string)
    requires IsLine(a) && EndsWithNewline(a)
    ensures SplitLines(a + rest) == [a] + SplitLines(rest)
  {
    var s := a + rest;
    var i := IndexOfChar(s, '\n');
    assert s[|a| - 1] == '\n';
    assert forall j :: 0 <= j < |a| - 1 ==> s[j] == a[..|a| - 1][j];
    assert i == |a| - 1;
    assert s[..i + 1] == a;
    assert s[i + 1..] == rest;
  }
}
