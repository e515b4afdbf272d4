/**
 * The shape shared by the line-oriented patchers (prl, la, pc, pri, cmake):
 * patchFile reads the file line by line, passes every line through a
 * rewrite, collects the results and writes them back over the file;
 * shouldPatch reads the file line by line and stops at the first line that
 * shows the old location. Both refuse a file that is missing or unreadable.
 * The patchers do not look at the result of opening the file for writing:
 * when that is refused they still report success.
 */
module TextFile {
  import opened Wrappers
  import opened Text
  import opened Files

  /** The lines readLine yields for a file. */
  function LinesOf(f: File): seq<string>
  {
    SplitLines(Decode(f.data))
  }

  function MapLines(rewrite: string -> string, ls: seq<string>): seq<string>
  {
    seq(|ls|, k requires 0 <= k < |ls| => rewrite(ls[k]))
  }

  /** The bytes a text patcher writes back. */
  function Rewritten(f: File, rewrite: string -> string): Bytes
  {
    Encode(Concat(MapLines(rewrite, LinesOf(f))))
  }

  /**
   * What a line-rewriting patchFile does to the file system, and what it
   * reports: only the patched file can change, and the report is true
   * exactly when the file could be read.
   */
  function PatchLinesSpec(fs: FS, p: string, rewrite: string -> string): (r: (bool, FS))
    ensures r.0 <==> Readable(fs, p)
    ensures forall k :: k != p ==> (k in r.1 <==> k in fs)
    ensures forall k :: k != p && k in fs ==> r.1[k] == fs[k]
    ensures p in r.1 <==> p in fs
    ensures r.0 && fs[p].writable ==> r.1[p].data == Rewritten(fs[p], rewrite)
    ensures !(r.0 && fs[p].writable) ==> r.1 == fs
  {
    if Readable(fs, p) then (true, Write(fs, p, Rewritten(fs[p], rewrite)).1) else (false, fs)
  }

  /** Mapping one more element appends its image. */
  lemma MapStep(f: string -> string, ls: seq<string>, i: int)
    requires 0 <= i < |ls|
    ensures MapLines(f, ls[..i + 1]) == MapLines(f, ls[..i]) + [f(ls[i])]
  {
  }

  /** One more line rewritten appends its encoded rewrite to the bytes written so far. */
  lemma RewriteStep(rewrite: string -> string, ls: seq<string>, i: int)
    requires 0 <= i < |ls|
    ensures Encode(Concat(MapLines(rewrite, ls[..i + 1])))
      == Encode(Concat(MapLines(rewrite, ls[..i]))) + Encode(rewrite(ls[i]))
  {
    assert MapLines(rewrite, ls[..i + 1]) == MapLines(rewrite, ls[..i]) + [rewrite(ls[i])];
    ConcatSnoc(MapLines(rewrite, ls[..i]), rewrite(ls[i]));
    EncodeAppend(Concat(MapLines(rewrite, ls[..i])), rewrite(ls[i]));
  }

  /** patchFile's read-rewrite-write loop, accumulating the output bytes line by line. */
  method PatchLines(disk: Disk, p: string, rewrite: string -> string) returns (ok: bool)
    modifies disk
    ensures (ok, disk.files) == PatchLinesSpec(old(disk.files), p, rewrite)
  {
    if !(p in disk.files && disk.files[p].readable) {
      return false;
    }
    ghost var fs := disk.files;
    var lines := LinesOf(disk.files[p]);
    var toWrite: Bytes := [];
    var i := 0;
    while i < |lines|
      invariant 0 <= i <= |lines|
      invariant disk.files == fs
      invariant toWrite == Encode(Concat(MapLines(rewrite, lines[..i])))
    {
      RewriteStep(rewrite, lines, i);
      toWrite := toWrite + Encode(rewrite(lines[i]));
      i := i + 1;
    }
    assert lines[..i] == lines;
    assert toWrite == Rewritten(fs[p], rewrite);
    var written := Write(disk.files, p, toWrite);
    disk.files := written.1;
    ok := true;
  }

  predicate SomeLine(ls: seq<string>, trigger: string -> bool)
  {
    exists k :: 0 <= k < |ls| && trigger(ls[k])
  }

  /** What a shouldPatch scan answers: the file can be read and one of its lines triggers. */
  predicate AnyLineSpec(fs: FS, p: string, trigger: string -> bool)
  {
    Readable(fs, p) && SomeLine(LinesOf(fs[p]), trigger)
  }

  /** A scan that has passed the lines before i and line i has passed the lines up to i. */
  lemma NoTriggerYet(ls: seq<string>, trigger: string -> bool, i: int)
    requires 0 <= i < |ls|
    requires forall k :: 0 <= k < i ==> !trigger(ls[k])
    requires !trigger(ls[i])
    ensures forall k :: 0 <= k < i + 1 ==> !trigger(ls[k])
  {
  }

  /** The position of the first line that stops a scan, or the number of lines. */
  function FirstStop(ls: seq<string>, stop: string -> bool): (n: nat)
    ensures n <= |ls|
    ensures forall j :: 0 <= j < n ==> !stop(ls[j])
    ensures n < |ls| ==> stop(ls[n])
  {
    if |ls| == 0 || stop(ls[0]) then 0
    else
      var k := FirstStop(ls[1..], stop);
      assert forall j :: 1 <= j < k + 1 ==> ls[j] == ls[1..][j - 1];
      k + 1
  }

  /** Some line passes hit before the scan stops: what a side effect of the scan depends on. */
  predicate HitBeforeStop(ls: seq<string>, hit: string -> bool, stop: string -> bool)
  {
    exists k :: 0 <= k < FirstStop(ls, stop) && hit(ls[k])
  }

  /** A scan that ends at i, with no stop before it, has seen exactly the hits before i. */
  lemma ScanEnds(ls: seq<string>, hit: string -> bool, stop: string -> bool, i: int)
    requires 0 <= i <= |ls|
    requires forall k :: 0 <= k < i ==> !stop(ls[k])
    requires i < |ls| ==> stop(ls[i])
    ensures FirstStop(ls, stop) == i
    ensures HitBeforeStop(ls, hit, stop) <==> exists k :: 0 <= k < i && hit(ls[k])
  {
  }

  /** Looking at one more line adds that line's hit. */
  lemma HitStep(ls: seq<string>, hit: string -> bool, i: int)
    requires 0 <= i < |ls|
    ensures (exists k :: 0 <= k < i + 1 && hit(ls[k])) <==> (exists k :: 0 <= k < i && hit(ls[k])) || hit(ls[i])
  {
  }

  /** Some element is a hit. */
  predicate AnyHit(ls: seq<string>, hit: string -> bool)
  {
    exists k :: 0 <= k < |ls| && hit(ls[k])
  }

  /** One more element of a prefix adds its hit. */
  lemma PrefixHitStep(ls: seq<string>, hit: string -> bool, i: int)
    requires 0 <= i < |ls|
    ensures AnyHit(ls[..i + 1], hit) <==> AnyHit(ls[..i], hit) || hit(ls[i])
  {
    assert ls[..i + 1] == ls[..i] + [ls[i]];
  }

  /** shouldPatch's scan, returning at the first line that triggers. */
  method AnyLine(fs: FS, p: string, trigger: string -> bool) returns (found: bool)
    ensures found <==> Readable(fs, p) && exists k :: 0 <= k < |LinesOf(fs[p])| && trigger(LinesOf(fs[p])[k])
  {
    if !(p in fs && fs[p].readable) {
      return false;
    }
    var lines := LinesOf(fs[p]);
    var i := 0;
    while i < |lines|
      invariant 0 <= i <= |lines|
      invariant forall k :: 0 <= k < i ==> !trigger(lines[k])
    {
      if trigger(lines[i]) {
        return true;
      }
      i := i + 1;
    }
    return false;
  }

  /**
   * The rewrite turns every line of f into a well-formed line of one-byte
   * characters, and keeps the newline of every line that has one.
   */
  ghost predicate RewritesCleanly(f: File, rewrite: string -> string)
  {
    forall k :: 0 <= k < |LinesOf(f)| ==>
      IsLine(rewrite(LinesOf(f)[k])) && Latin1(rewrite(LinesOf(f)[k]))
      && (EndsWithNewline(LinesOf(f)[k]) ==> EndsWithNewline(rewrite(LinesOf(f)[k])))
  }

  /** Every line of a file is a well-formed line of one-byte characters. */
  lemma LineLatin1(f: File, k: int)
    requires 0 <= k < |LinesOf(f)|
    ensures IsLine(LinesOf(f)[k]) && Latin1(LinesOf(f)[k])
  {
    var text := Decode(f.data);
    forall c | c in LinesOf(f)[k]
      ensures (c as int) < 256
    {
      assert c in text;
    }
  }

  /** After a text patch whose write went through, reading the file again yields exactly the rewritten lines. */
  lemma ReadBack(fs: FS, p: string, rewrite: string -> string)
    requires Readable(fs, p) && fs[p].writable
    requires RewritesCleanly(fs[p], rewrite)
    ensures var fs' := PatchLinesSpec(fs, p, rewrite).1;
      Readable(fs', p) && LinesOf(fs'[p]) == MapLines(rewrite, LinesOf(fs[p]))
  {
    var ls := LinesOf(fs[p]);
    var out := MapLines(rewrite, ls);
    assert forall k :: 0 <= k < |out| ==> out[k] == rewrite(ls[k]);
    Latin1Concat(out);
    DecodeEncode(Concat(out));
    SplitLinesConcat(out);
  }

  /**
   * When no rewritten line of the file triggers the scan, a successful patch
   * leaves a file that the same scan no longer selects: patching is
   * idempotent.
   */
  lemma PatchQuiets(fs: FS, p: string, rewrite: string -> string, trigger: string -> bool)
    requires Readable(fs, p) && fs[p].writable
    requires RewritesCleanly(fs[p], rewrite)
    requires forall k :: 0 <= k < |LinesOf(fs[p])| ==> !trigger(rewrite(LinesOf(fs[p])[k]))
    ensures !AnyLineSpec(PatchLinesSpec(fs, p, rewrite).1, p, trigger)
  {
    ReadBack(fs, p, rewrite);
    var fs' := PatchLinesSpec(fs, p, rewrite).1;
    var ls := LinesOf(fs[p]);
    var out := MapLines(rewrite, ls);
    assert LinesOf(fs'[p]) == out;
    assert forall k :: 0 <= k < |out| ==> out[k] == rewrite(ls[k]);
    assert !SomeLine(out, trigger);
  }

  /**
   * A line cut at its first '=' into its trimmed key and its trimmed value
   * (QString::indexOf, left, mid and trimmed), or None when it has no '='.
   */
  function Assignment(l: string): (r: Option<(string, string)>)
    ensures r.None? <==> '=' !in l
  {
    var i := IndexOfChar(l, '=');
    if i == -1 then None else Some((Trim(l[..i]), Trim(l[i + 1..])))
  }

  /** No whitespace at either end. */
  predicate Tight(s: string)
  {
    |s| > 0 ==> !IsSpace(s[0]) && !IsSpace(s[|s| - 1])
  }

  /** The line "key = value\n" a patcher writes reads back as that key and that value. */
  lemma AssignmentOf(key: string, value: string)
    requires '=' !in key && Tight(key) && Tight(value)
    ensures Assignment(key + " = " + value + "\n") == Some((key, value))
  {
    var a, b := key + " ", " " + value + "\n";
    var l := key + " = " + value + "\n";
    assert l == a + ['='] + b;
    IndexOfCharAfter(a, '=', b);
    assert IndexOfChar(l, '=') == |a|;
    assert l[..|a|] == a && l[|a| + 1..] == b;
    assert Trim(a) == key by {
      assert AllSpace("") && AllSpace(" ");
      TrimPadded("", key, " ");
      assert "" + key + " " == a;
    }
    assert Trim(b) == value by {
      assert AllSpace(" ") && AllSpace("\n");
      TrimPadded(" ", value, "\n");
    }
  }

  /** "key = value\n" is one well-formed line, of one-byte characters when key and value are. */
  lemma AssignmentLine(key: string, value: string)
    requires '\n' !in key && '\n' !in value
    ensures IsLine(key + " = " + value + "\n") && EndsWithNewline(key + " = " + value + "\n")
    ensures Latin1(key) && Latin1(value) ==> Latin1(key + " = " + value + "\n")
  {
    var l := key + " = " + value + "\n";
    assert l[..|l| - 1] == key + " = " + value;
  }

  /** The trimmed text of a line of one-byte characters fits in a line. */
  lemma TrimmedLineSafe(l: string)
    requires IsLine(l) && Latin1(l)
    ensures LineSafe(Trim(l))
  {
    var a := TrimStart(l);
    var r := TrimEnd(a);
    var off := |l| - |a|;
    forall i | 0 <= i < |r|
      ensures r[i] != '\n' && (r[i] as int) < 256
    {
      assert r[i] == a[i] == l[off + i];
      assert l[off + i] in l;
      if off + i < |l| - 1 {
        assert l[off + i] == l[..|l| - 1][off + i];
      } else {
        assert i == |r| - 1;
      }
    }
  }

  /** A key followed by a value and a newline is one well-formed line when both fit in a line. */
  lemma KeyLine(key: string, value: string)
    requires LineSafe(key) && LineSafe(value)
    ensures IsLine(key + value + "\n") && EndsWithNewline(key + value + "\n") && Latin1(key + value + "\n")
  {
    var l := key + value + "\n";
    assert l[..|l| - 1] == key + value;
  }

  /** A key, a value and a closing quote, each fitting in a line, make one well-formed line. */
  lemma QuotedLineSafe(key: string, v: string)
    requires LineSafe(key) && LineSafe(v)
    ensures IsLine(key + v + "'\n") && EndsWithNewline(key + v + "'\n") && Latin1(key + v + "'\n")
  {
    LineSafeConcat(v, "'");
    KeyLine(key, v + "'");
    assert key + (v + "'") + "\n" == key + v + "'\n";
  }
}
