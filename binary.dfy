/**
 * The binary patcher. Qt's core library and qmake carry their install
 * locations as byte strings such as "qt_prfxpath=/old/prefix". The patcher
 * finds every occurrence of each marker of a fixed table and overwrites, in
 * place, the marker followed by the new location. The overwrite has the
 * length of what is written: nothing after it is touched, no terminating
 * zero byte is added, and the cursor moves past what was written, so a
 * replacement is never scanned again.
 */
module Binary {
  import opened Text
  import opened Paths
  import opened Files
  import opened Settings
  import opened QtDir

  /** A row of a marker table: the marker in the binary and the suffix appended to newDir. */
  datatype Entry = Entry(marker: string, suffix: string)

  const Qt5Table: seq<Entry> := [
    Entry("qt_epfxpath=", ""), Entry("qt_prfxpath=", ""), Entry("qt_hpfxpath=", "")]

  const Qt4Table: seq<Entry> := [
    Entry("qt_prfxpath=", ""), Entry("qt_datapath=", ""), Entry("qt_docspath=", "/doc"),
    Entry("qt_hdrspath=", "/include"), Entry("qt_libspath=", "/lib"), Entry("qt_binspath=", "/bin"),
    Entry("qt_plugpath=", "/plugins"), Entry("qt_impspath=", "/imports"),
    Entry("qt_trnspath=", "/translations"), Entry("qt_xmplpath=", "/examples"),
    Entry("qt_demopath=", "/demos")]

  /** Qt 4 uses the eleven-entry table, every other major version the three Qt 5 prefixes. */
  function Table(major: nat): (t: seq<Entry>)
    ensures |t| == (if major == 4 then 11 else 3)
    ensures forall k :: 0 <= k < |t| ==> |t[k].marker| == 12 && t[k].marker[11] == '='
    ensures major != 4 ==> forall k :: 0 <= k < |t| ==> t[k].suffix == ""
  {
    if major == 4 then Qt4Table else Qt5Table
  }

  /**
   * The location written after a marker: the absolute path of newDir plus
   * the suffix, with forward slashes for Qt 5 and native separators
   * otherwise. Either way it names the directory newDir + suffix names.
   */
  function NewLocation(st: Settings, env: Env, suffix: string): (r: string)
    ensures FromNative(env, r) == FromNative(env, AbsPath(env, st.newDir + suffix))
    ensures Major(st) == 5 || env.platform == Unix ==> r == FromNative(env, AbsPath(env, st.newDir + suffix))
    ensures Major(st) != 5 ==> r == ToNative(env, AbsPath(env, st.newDir + suffix))
    ensures ValidEnv(env) ==> AbsPath(env, r) == AbsPath(env, st.newDir + suffix)
  {
    var p := AbsPath(env, st.newDir + suffix);
    FromToNative(env, p);
    AbsPathEitherForm(env, st.newDir + suffix);
    if Major(st) == 5 then FromNative(env, p) else ToNative(env, p)
  }

  /** The bytes patchFile writes at a hit as written: the marker followed by the new location. */
  function PlusPathAsWritten(st: Settings, env: Env, e: Entry): (w: Bytes)
    ensures |w| == |e.marker| + |NewLocation(st, env, e.suffix)|
    ensures w[..|e.marker|] == Encode(e.marker)
    ensures w[|e.marker|..] == Encode(NewLocation(st, env, e.suffix))
  {
    EncodeAppend(e.marker, NewLocation(st, env, e.suffix));
    Encode(e.marker + NewLocation(st, env, e.suffix))
  }

  /**
   * The bytes written at a hit, corrected: the marker, the new location and
   * the zero byte that ends it.
   */
  function PlusPath(st: Settings, env: Env, e: Entry): (w: Bytes)
    ensures |w| == |e.marker| + |NewLocation(st, env, e.suffix)| + 1
    ensures w[..|e.marker|] == Encode(e.marker) && w[|w| - 1] == 0
    ensures w[..|w| - 1] == PlusPathAsWritten(st, env, e)
  {
    var v := PlusPathAsWritten(st, env, e);
    assert (v + [0])[..|e.marker|] == v[..|e.marker|];
    v + [0]
  }

  predicate BytesAt(a: Bytes, m: Bytes, i: nat)
    decreases |m|
  {
    i + |m| <= |a| && (|m| == 0 || (a[i] == m[0] && BytesAt(a, m[1..], i + 1)))
  }

  /** m occurs at i exactly when the bytes of a from i on spell m. */
  lemma {:induction false} BytesAtSlice(a: Bytes, m: Bytes, i: nat)
    ensures BytesAt(a, m, i) <==> i + |m| <= |a| && a[i..i + |m|] == m
    decreases |m|
  {
    if i + |m| <= |a| && |m| > 0 {
      BytesAtSlice(a, m[1..], i + 1);
      assert a[i..i + |m|] == [a[i]] + a[i + 1..i + 1 + |m[1..]|];
      assert m == [m[0]] + m[1..];
    }
  }

  /** Whether m occurs at i depends only on the bytes from i to i + |m|. */
  lemma {:induction false} BytesAtSame(a: Bytes, b: Bytes, m: Bytes, i: nat)
    requires i + |m| <= |a| && i + |m| <= |b|
    requires forall k :: i <= k < i + |m| ==> a[k] == b[k]
    ensures BytesAt(a, m, i) == BytesAt(b, m, i)
    decreases |m|
  {
    if |m| > 0 {
      BytesAtSame(a, b, m[1..], i + 1);
    }
  }

  /** QByteArray::indexOf(m, from): the first position at or after from where m occurs, or -1. */
  function IndexOf(a: Bytes, m: Bytes, from: nat): (r: int)
    requires |m| > 0
    ensures r == -1 || (from <= r && BytesAt(a, m, r))
    decreases |a| - from
  {
    if from + |m| > |a| then -1
    else if BytesAt(a, m, from) then from
    else IndexOf(a, m, from + 1)
  }

  /** indexOf finds the first occurrence: none lies between the cursor and the hit, and none at all on a miss. */
  lemma {:induction false} IndexOfFirst(a: Bytes, m: Bytes, from: nat, i: nat)
    requires |m| > 0 && from <= i && BytesAt(a, m, i)
    ensures IndexOf(a, m, from) != -1 && IndexOf(a, m, from) <= i
    decreases i - from
  {
    if !BytesAt(a, m, from) {
      IndexOfFirst(a, m, from + 1, i);
    }
  }

  /**
   * QByteArray::replace(i, |w|, w). When the range fits, the bytes are
   * overwritten in place; otherwise the array is cut at i and w appended.
   */
  function Overwrite(a: Bytes, i: nat, w: Bytes): (r: Bytes)
    requires i <= |a|
    ensures |r| == if i + |w| <= |a| then |a| else i + |w|
  {
    a[..i] + w + (if i + |w| <= |a| then a[i + |w|..] else [])
  }

  /** Two arrays that agree up to hi agree on every range that ends there. */
  lemma SameSlice(x: Bytes, y: Bytes, lo: nat, hi: nat)
    requires lo <= hi <= |x| && hi <= |y| && x[..hi] == y[..hi]
    ensures x[lo..hi] == y[lo..hi]
  {
    assert x[lo..hi] == x[..hi][lo..];
    assert y[lo..hi] == y[..hi][lo..];
  }

  /** Two arrays that agree up to hi agree up to any lo below it. */
  lemma SamePrefix(x: Bytes, y: Bytes, lo: nat, hi: nat)
    requires lo <= hi <= |x| && hi <= |y| && x[..hi] == y[..hi]
    ensures x[..lo] == y[..lo]
  {
    assert x[..lo] == x[..hi][..lo];
    assert y[..lo] == y[..hi][..lo];
  }

  /** Before i the bytes are kept, and from i on w is written. */
  lemma OverwriteParts(a: Bytes, i: nat, w: Bytes)
    requires i <= |a|
    ensures Overwrite(a, i, w)[..i] == a[..i] && Overwrite(a, i, w)[i..i + |w|] == w
  {
  }

  /** An overwrite that fits keeps the length and changes exactly the written range. */
  lemma OverwriteFrame(a: Bytes, i: nat, w: Bytes)
    requires i + |w| <= |a|
    ensures |Overwrite(a, i, w)| == |a|
    ensures Overwrite(a, i, w)[i..i + |w|] == w
    ensures forall j :: 0 <= j < i || i + |w| <= j < |a| ==> Overwrite(a, i, w)[j] == a[j]
  {
  }

  /** An overwrite that does not fit leaves the array ending with what was written. */
  lemma OverwriteGrows(a: Bytes, i: nat, w: Bytes)
    requires i <= |a| < i + |w|
    ensures Overwrite(a, i, w) == a[..i] + w
  {
  }

  /**
   * The while loop of patchFile for one marker, from the cursor on: each
   * hit is overwritten with w and the search resumes after it.
   */
  function ScanFrom(a: Bytes, m: Bytes, w: Bytes, from: nat): (r: Bytes)
    requires |m| > 0 && |w| > 0 && from <= |a|
    ensures |r| >= |a|
    decreases |a| - from
  {
    var i := IndexOf(a, m, from);
    if i == -1 then a
    else ScanFrom(Overwrite(a, i, w), m, w, i + |w|)
  }

  /** The scan never changes what lies before the cursor. */
  lemma {:induction false} ScanKeepsPrefix(a: Bytes, m: Bytes, w: Bytes, from: nat)
    requires |m| > 0 && |w| > 0 && from <= |a|
    ensures ScanFrom(a, m, w, from)[..from] == a[..from]
    decreases |a| - from
  {
    var i := IndexOf(a, m, from);
    if i != -1 {
      var a' := Overwrite(a, i, w);
      ScanStep(a, m, w, from, i);
      ScanKeepsPrefix(a', m, w, i + |w|);
      OverwriteParts(a, i, w);
      SamePrefix(a', a, from, i);
      SamePrefix(ScanFrom(a', m, w, i + |w|), a', from, i + |w|);
    }
  }

  /** The first hit holds the replacement when the scan is over: what is written is never scanned again. */
  lemma FirstHitKept(a: Bytes, m: Bytes, w: Bytes, from: nat, i: int)
    requires |m| > 0 && |w| > 0 && from <= |a|
    requires i == IndexOf(a, m, from) && i != -1
    ensures ScanFrom(a, m, w, from)[i..i + |w|] == w
  {
    ScanStep(a, m, w, from, i);
    ScanKeepsRange(Overwrite(a, i, w), m, w, i, i + |w|);
    OverwriteParts(a, i, w);
  }

  /** The scan leaves every range before the cursor as it was. */
  lemma ScanKeepsRange(a: Bytes, m: Bytes, w: Bytes, lo: nat, from: nat)
    requires |m| > 0 && |w| > 0 && lo <= from <= |a|
    ensures ScanFrom(a, m, w, from)[lo..from] == a[lo..from]
  {
    ScanKeepsPrefix(a, m, w, from);
    SameSlice(ScanFrom(a, m, w, from), a, lo, from);
  }

  /** Bytes after an in-place overwrite still hold the occurrences they held before. */
  lemma HitAfterWrite(a: Bytes, i: nat, w: Bytes, m: Bytes, j: nat)
    requires i + |w| <= |a| && i + |w| <= j
    requires BytesAt(Overwrite(a, i, w), m, j)
    ensures BytesAt(a, m, j)
  {
    OverwriteFrame(a, i, w);
    BytesAtSame(Overwrite(a, i, w), a, m, j);
  }

  /** One step of the scan: the first hit from the cursor is overwritten and the scan resumes after it. */
  lemma ScanStep(a: Bytes, m: Bytes, w: Bytes, from: nat, i: int)
    requires |m| > 0 && |w| > 0 && from <= |a|
    requires i == IndexOf(a, m, from) && i != -1
    ensures from <= i && i + |w| <= |Overwrite(a, i, w)|
    ensures |Overwrite(a, i, w)| - (i + |w|) < |a| - from
    ensures ScanFrom(a, m, w, from) == ScanFrom(Overwrite(a, i, w), m, w, i + |w|)
  {
    assert BytesAt(a, m, i);
  }

  /** The scan ends when no hit is left after the cursor. */
  lemma ScanDone(a: Bytes, m: Bytes, w: Bytes, from: nat)
    requires |m| > 0 && |w| > 0 && from <= |a|
    requires IndexOf(a, m, from) == -1
    ensures ScanFrom(a, m, w, from) == a
  {
  }

  /** An overwrite that fits keeps the length, and every later hit still has room. */
  lemma RoomAfterWrite(a: Bytes, m: Bytes, w: Bytes, from: nat, i: nat)
    requires |m| > 0 && from <= i && BytesAt(a, m, i)
    requires forall j: nat :: from <= j && BytesAt(a, m, j) ==> j + |w| <= |a|
    ensures |Overwrite(a, i, w)| == |a|
    ensures forall j: nat :: i + |w| <= j && BytesAt(Overwrite(a, i, w), m, j) ==> j + |w| <= |a|
  {
    forall j: nat | i + |w| <= j && BytesAt(Overwrite(a, i, w), m, j)
      ensures j + |w| <= |a|
    {
      HitAfterWrite(a, i, w, m, j);
    }
  }

  /**
   * When every occurrence at or after the cursor leaves room for the
   * replacement, the scan keeps the length of the array.
   */
  lemma {:induction false} ScanKeepsLength(a: Bytes, m: Bytes, w: Bytes, from: nat)
    requires |m| > 0 && |w| > 0 && from <= |a|
    requires forall j: nat :: from <= j && BytesAt(a, m, j) ==> j + |w| <= |a|
    ensures |ScanFrom(a, m, w, from)| == |a|
    decreases |a| - from
  {
    var i := IndexOf(a, m, from);
    if i != -1 {
      ScanStep(a, m, w, from, i);
      RoomAfterWrite(a, m, w, from, i);
      ScanKeepsLength(Overwrite(a, i, w), m, w, i + |w|);
    }
  }

  /** The positions at which the scan from the cursor writes, in the order it writes them. */
  function Hits(a: Bytes, m: Bytes, w: Bytes, from: nat): (hs: seq<nat>)
    requires |m| > 0 && |w| > 0 && from <= |a|
    ensures forall i :: i in hs ==> from <= i
    decreases |a| - from
  {
    var i := IndexOf(a, m, from);
    if i == -1 then []
    else [i] + Hits(Overwrite(a, i, w), m, w, i + |w|)
  }

  /** Position j lies in one of the ranges of length len that start at the positions hs. */
  predicate Covered(hs: seq<nat>, len: nat, j: nat)
  {
    |hs| > 0 && (hs[0] <= j < hs[0] + len || Covered(hs[1..], len, j))
  }

  /** An overwrite keeps every byte of the array outside the written range. */
  lemma OverwriteOutside(a: Bytes, i: nat, w: Bytes)
    requires i <= |a|
    ensures forall j :: 0 <= j < i || i + |w| <= j < |a| ==> Overwrite(a, i, w)[j] == a[j]
  {
  }

  /** The scan keeps every byte of the array that none of its writes covers. */
  lemma {:induction false} ScanFrame(a: Bytes, m: Bytes, w: Bytes, from: nat, j: nat)
    requires |m| > 0 && |w| > 0 && from <= |a|
    requires j < |a| && !Covered(Hits(a, m, w, from), |w|, j)
    ensures ScanFrom(a, m, w, from)[j] == a[j]
    decreases |a| - from
  {
    var i := IndexOf(a, m, from);
    if i != -1 {
      var a' := Overwrite(a, i, w);
      ScanStep(a, m, w, from, i);
      var hs := Hits(a', m, w, i + |w|);
      assert Hits(a, m, w, from) == [i] + hs;
      assert ([i] + hs)[1..] == hs;
      OverwriteOutside(a, i, w);
      if j < i {
        ScanKeepsPrefix(a', m, w, i + |w|);
        assert ScanFrom(a', m, w, i + |w|)[..i + |w|][j] == a'[..i + |w|][j];
      } else {
        ScanFrame(a', m, w, i + |w|, j);
      }
    }
  }

  /** Every hit of the scan holds w when the scan is over: the marker followed by the new location. */
  lemma {:induction false} ScanWritesHits(a: Bytes, m: Bytes, w: Bytes, from: nat, k: nat)
    requires |m| > 0 && |w| > 0 && from <= |a| && k < |Hits(a, m, w, from)|
    ensures var h := Hits(a, m, w, from)[k];
      h + |w| <= |ScanFrom(a, m, w, from)| && ScanFrom(a, m, w, from)[h..h + |w|] == w
    decreases |a| - from
  {
    var i := IndexOf(a, m, from);
    if k == 0 {
      FirstHitKept(a, m, w, from, i);
    } else {
      ScanStep(a, m, w, from, i);
      var a' := Overwrite(a, i, w);
      assert Hits(a, m, w, from)[k] == Hits(a', m, w, i + |w|)[k - 1];
      ScanWritesHits(a', m, w, i + |w|, k - 1);
    }
  }

  /** One entry of the table as the scan uses it: the marker's bytes and the bytes written at each hit. */
  datatype Rewrite = Rewrite(marker: Bytes, bytes: Bytes)

  /** Every marker and every replacement of the rewrites is non-empty. */
  predicate Ready(ws: seq<Rewrite>)
  {
    forall k :: 0 <= k < |ws| ==> |ws[k].marker| > 0 && |ws[k].bytes| > 0
  }

  /** The rewrites the table asks for, as written: each marker followed by its new location. */
  function Rewrites(st: Settings, env: Env, t: seq<Entry>): (ws: seq<Rewrite>)
    ensures |ws| == |t|
    ensures forall k :: 0 <= k < |t| ==> ws[k] == Rewrite(Encode(t[k].marker), PlusPathAsWritten(st, env, t[k]))
    ensures (forall k :: 0 <= k < |t| ==> |t[k].marker| > 0) ==> Ready(ws)
  {
    seq(|t|, k requires 0 <= k < |t| => Rewrite(Encode(t[k].marker), PlusPathAsWritten(st, env, t[k])))
  }

  /** Every rewrite scanned in turn, each from the start of the array. */
  function ApplyTable(a: Bytes, ws: seq<Rewrite>): (r: Bytes)
    requires Ready(ws)
    ensures |r| >= |a|
  {
    if |ws| == 0 then a
    else
      var e := ws[|ws| - 1];
      ScanFrom(ApplyTable(a, ws[..|ws| - 1]), e.marker, e.bytes, 0)
  }

  /** Every hit the scan meets, on the bytes the earlier rewrites left, has room for what is written there. */
  ghost predicate HitsHaveRoom(a: Bytes, ws: seq<Rewrite>)
    requires Ready(ws)
  {
    |ws| == 0 ||
    (var e := ws[|ws| - 1];
     var b := ApplyTable(a, ws[..|ws| - 1]);
     HitsHaveRoom(a, ws[..|ws| - 1])
     && forall j: nat :: BytesAt(b, e.marker, j) ==> j + |e.bytes| <= |b|)
  }

  /** Some rewrite writes over position j. */
  predicate Written(a: Bytes, ws: seq<Rewrite>, j: nat)
    requires Ready(ws)
  {
    |ws| > 0 &&
    (var e := ws[|ws| - 1];
     Written(a, ws[..|ws| - 1], j)
     || Covered(Hits(ApplyTable(a, ws[..|ws| - 1]), e.marker, e.bytes, 0), |e.bytes|, j))
  }

  /** Scanning every rewrite keeps every byte that none of them writes over. */
  lemma {:induction false} TableFrame(a: Bytes, ws: seq<Rewrite>, j: nat)
    requires Ready(ws)
    requires j < |a| && !Written(a, ws, j)
    ensures ApplyTable(a, ws)[j] == a[j]
  {
    if |ws| > 0 {
      var e := ws[|ws| - 1];
      TableFrame(a, ws[..|ws| - 1], j);
      ScanFrame(ApplyTable(a, ws[..|ws| - 1]), e.marker, e.bytes, 0, j);
    }
  }

  /** Scanning the rewrites is scanning the first n of them and then the rest on what they left. */
  lemma {:induction false} ApplyTableSplit(a: Bytes, ws: seq<Rewrite>, n: nat)
    requires Ready(ws)
    requires n <= |ws|
    ensures ApplyTable(a, ws) == ApplyTable(ApplyTable(a, ws[..n]), ws[n..])
  {
    if n == |ws| {
      assert ws[..n] == ws;
      assert ws[n..] == [];
    } else {
      var v := ws[..|ws| - 1];
      ApplyTableSplit(a, v, n);
      assert v[..n] == ws[..n];
      assert ws[n..][..|ws| - n - 1] == v[n..];
    }
  }

  /** One more rewrite scans the bytes the ones before it left. */
  lemma ApplyTableStep(a: Bytes, ws: seq<Rewrite>, k: nat)
    requires Ready(ws)
    requires k < |ws|
    ensures ApplyTable(a, ws[..k + 1]) == ScanFrom(ApplyTable(a, ws[..k]), ws[k].marker, ws[k].bytes, 0)
  {
    assert ws[..k + 1][..k] == ws[..k];
  }

  /** The positions where rewrite k writes, on the bytes the rewrites before it left. */
  function EntryHits(a: Bytes, ws: seq<Rewrite>, k: nat): seq<nat>
    requires Ready(ws)
    requires k < |ws|
  {
    Hits(ApplyTable(a, ws[..k]), ws[k].marker, ws[k].bytes, 0)
  }

  /** No rewrite of u writes anywhere in [lo, hi) when u is scanned over b. */
  ghost predicate Untouched(b: Bytes, u: seq<Rewrite>, lo: nat, hi: nat)
    requires Ready(u)
  {
    forall j: nat :: lo <= j < hi ==> !Written(b, u, j)
  }

  /** r holds w at h. */
  predicate HitFits(h: nat, w: Bytes, r: Bytes)
  {
    h + |w| <= |r| && r[h..h + |w|] == w
  }

  /**
   * Every hit of every rewrite holds what that rewrite writes in r, unless
   * a later rewrite writes over part of it.
   */
  ghost predicate HoldsHits(a: Bytes, ws: seq<Rewrite>, r: Bytes)
    requires Ready(ws)
  {
    forall k: nat, n: nat |
      k < |ws| && n < |EntryHits(a, ws, k)| &&
      Untouched(ApplyTable(a, ws[..k + 1]), ws[k + 1..], EntryHits(a, ws, k)[n], EntryHits(a, ws, k)[n] + |ws[k].bytes|) ::
      HitFits(EntryHits(a, ws, k)[n], ws[k].bytes, r)
  }

  /** Bytes w at h, which no rewrite of u writes over, are still there once u is scanned. */
  lemma LaterKeeps(b: Bytes, u: seq<Rewrite>, h: nat, w: Bytes)
    requires Ready(u)
    requires HitFits(h, w, b)
    requires Untouched(b, u, h, h + |w|)
    ensures HitFits(h, w, ApplyTable(b, u))
  {
    var r := ApplyTable(b, u);
    forall j | h <= j < h + |w|
      ensures r[j] == w[j - h]
    {
      TableFrame(b, u, j);
      assert b[h..h + |w|][j - h] == b[j];
    }
  }

  /** The n-th hit of rewrite k holds what it wrote once every rewrite is scanned, unless a later one writes over it. */
  lemma EntryHitHolds(a: Bytes, ws: seq<Rewrite>, k: nat, n: nat)
    requires Ready(ws)
    requires k < |ws| && n < |EntryHits(a, ws, k)|
    requires Untouched(ApplyTable(a, ws[..k + 1]), ws[k + 1..], EntryHits(a, ws, k)[n], EntryHits(a, ws, k)[n] + |ws[k].bytes|)
    ensures HitFits(EntryHits(a, ws, k)[n], ws[k].bytes, ApplyTable(a, ws))
  {
    var b := ApplyTable(a, ws[..k + 1]);
    ApplyTableStep(a, ws, k);
    ScanWritesHits(ApplyTable(a, ws[..k]), ws[k].marker, ws[k].bytes, 0, n);
    LaterKeeps(b, ws[k + 1..], EntryHits(a, ws, k)[n], ws[k].bytes);
    ApplyTableSplit(a, ws, k + 1);
  }

  /** Scanning every rewrite leaves every hit holding what was written there, unless a later rewrite wrote over it. */
  lemma TableHoldsHits(a: Bytes, ws: seq<Rewrite>)
    requires Ready(ws)
    ensures HoldsHits(a, ws, ApplyTable(a, ws))
  {
    forall k: nat, n: nat |
      k < |ws| && n < |EntryHits(a, ws, k)| &&
      Untouched(ApplyTable(a, ws[..k + 1]), ws[k + 1..], EntryHits(a, ws, k)[n], EntryHits(a, ws, k)[n] + |ws[k].bytes|)
      ensures HitFits(EntryHits(a, ws, k)[n], ws[k].bytes, ApplyTable(a, ws))
    {
      EntryHitHolds(a, ws, k, n);
    }
  }

  /** When every hit has room, scanning the rewrites keeps the length of the array. */
  lemma {:induction false} TableKeepsLength(a: Bytes, ws: seq<Rewrite>)
    requires Ready(ws)
    requires HitsHaveRoom(a, ws)
    ensures |ApplyTable(a, ws)| == |a|
  {
    if |ws| > 0 {
      var e := ws[|ws| - 1];
      TableKeepsLength(a, ws[..|ws| - 1]);
      ScanKeepsLength(ApplyTable(a, ws[..|ws| - 1]), e.marker, e.bytes, 0);
    }
  }

  /** The rewrites of the table for the Qt version of st. */
  function Patches(st: Settings, env: Env): (ws: seq<Rewrite>)
    ensures Ready(ws) && |ws| == |Table(Major(st))|
    ensures forall k :: 0 <= k < |ws| ==>
      ws[k] == Rewrite(Encode(Table(Major(st))[k].marker), PlusPathAsWritten(st, env, Table(Major(st))[k]))
    ensures forall k :: 0 <= k < |ws| ==>
      ws[k].bytes == Encode(Table(Major(st))[k].marker) + Encode(NewLocation(st, env, Table(Major(st))[k].suffix))
  {
    forall k | 0 <= k < |Table(Major(st))|
      ensures PlusPathAsWritten(st, env, Table(Major(st))[k])
        == Encode(Table(Major(st))[k].marker) + Encode(NewLocation(st, env, Table(Major(st))[k].suffix))
    {
      var e := Table(Major(st))[k];
      EncodeAppend(e.marker, NewLocation(st, env, e.suffix));
    }
    Rewrites(st, env, Table(Major(st)))
  }

  /** The bytes r keep the length of data and every byte of it that the table scan does not write over. */
  ghost predicate KeepsUnwritten(st: Settings, env: Env, data: Bytes, r: Bytes)
  {
    |r| == |data| && forall j: nat :: j < |data| && !Written(data, Patches(st, env), j) ==> r[j] == data[j]
  }

  /** When every hit has room, the patched bytes keep the length and every byte not written over. */
  lemma PatchedKeepsUnwritten(st: Settings, env: Env, data: Bytes)
    ensures HitsHaveRoom(data, Patches(st, env)) ==>
      KeepsUnwritten(st, env, data, ApplyTable(data, Patches(st, env)))
  {
    var ws := Patches(st, env);
    if HitsHaveRoom(data, ws) {
      TableKeepsLength(data, ws);
      forall j: nat | j < |data| && !Written(data, ws, j)
        ensures ApplyTable(data, ws)[j] == data[j]
      {
        TableFrame(data, ws, j);
      }
    }
  }

  /** What BinaryPatcher::patchFile does to the file system and reports. */
  function PatchFileSpec(st: Settings, env: Env, fs: FS, file: string): (r: (bool, FS))
    ensures r.0 <==> Readable(fs, QtPath(st, env, file)) && fs[QtPath(st, env, file)].writable
    ensures !r.0 ==> r.1 == fs
    ensures forall k :: k != QtPath(st, env, file) ==> (k in r.1 <==> k in fs)
    ensures forall k :: k != QtPath(st, env, file) && k in fs ==> r.1[k] == fs[k]
    ensures r.0 ==> QtPath(st, env, file) in r.1 && |r.1[QtPath(st, env, file)].data| >= |fs[QtPath(st, env, file)].data|
    ensures r.0 && HitsHaveRoom(fs[QtPath(st, env, file)].data, Patches(st, env)) ==>
      KeepsUnwritten(st, env, fs[QtPath(st, env, file)].data, r.1[QtPath(st, env, file)].data)
    ensures r.0 ==> HoldsHits(fs[QtPath(st, env, file)].data, Patches(st, env), r.1[QtPath(st, env, file)].data)
  {
    var path := QtPath(st, env, file);
    if !Readable(fs, path) then (false, fs)
    else
      var data := fs[path].data;
      PatchedKeepsUnwritten(st, env, data);
      TableHoldsHits(data, Patches(st, env));
      Write(fs, path, ApplyTable(data, Patches(st, env)))
  }

  /** Bytes w held at h hold its first c bytes at h and the rest right after them. */
  lemma FitsParts(h: nat, w: Bytes, r: Bytes, c: nat)
    requires HitFits(h, w, r) && c <= |w|
    ensures r[h..h + c] == w[..c] && r[h + c..h + |w|] == w[c..]
  {
    assert r[h..h + c] == r[h..h + |w|][..c];
    assert r[h + c..h + |w|] == r[h..h + |w|][c..];
  }

  /** r holds the marker m at h and the location loc right after it. */
  predicate ReadsAt(r: Bytes, h: nat, m: Bytes, loc: Bytes)
  {
    h + |m| + |loc| <= |r| && r[h..h + |m|] == m && r[h + |m|..h + |m| + |loc|] == loc
  }

  /**
   * Where the hits hold what was written, the n-th hit of a rewrite that
   * writes the marker m followed by the location loc reads m and then loc,
   * unless a later rewrite wrote over part of it.
   */
  lemma HitReadsLocation(data: Bytes, ws: seq<Rewrite>, r: Bytes, k: nat, n: nat, m: Bytes, loc: Bytes)
    requires Ready(ws) && HoldsHits(data, ws, r)
    requires k < |ws| && n < |EntryHits(data, ws, k)| && ws[k].bytes == m + loc
    requires var h := EntryHits(data, ws, k)[n];
      Untouched(ApplyTable(data, ws[..k + 1]), ws[k + 1..], h, h + |ws[k].bytes|)
    ensures ReadsAt(r, EntryHits(data, ws, k)[n], m, loc)
  {
    var h := EntryHits(data, ws, k)[n];
    assert HitFits(h, ws[k].bytes, r);
    FitsParts(h, m + loc, r, |m|);
    assert (m + loc)[..|m|] == m && (m + loc)[|m|..] == loc;
  }

  /** The while loop of patchFile for one marker: search from the cursor, overwrite, move past what was written. */
  method ScanMarker(a: Bytes, m: Bytes, w: Bytes) returns (arr: Bytes)
    requires |m| > 0 && |w| > 0
    ensures arr == ScanFrom(a, m, w, 0)
  {
    arr := a;
    var index := 0;
    var hit := IndexOf(arr, m, index);
    while hit != -1
      invariant 0 <= index <= |arr|
      invariant hit == IndexOf(arr, m, index)
      invariant ScanFrom(arr, m, w, index) == ScanFrom(a, m, w, 0)
      decreases |arr| - index
    {
      ScanStep(arr, m, w, index, hit);
      arr, index := Overwrite(arr, hit, w), hit + |w|;
      hit := IndexOf(arr, m, index);
    }
    ScanDone(arr, m, w, index);
  }

  /** patchFile's loop over the table: for each entry, its marker and the bytes to write, then that marker's scan. */
  method ApplyAll(st: Settings, env: Env, data: Bytes, table: seq<Entry>) returns (arr: Bytes)
    requires forall k :: 0 <= k < |table| ==> |table[k].marker| > 0
    ensures arr == ApplyTable(data, Rewrites(st, env, table))
  {
    ghost var ws := Rewrites(st, env, table);
    arr := data;
    var k := 0;
    while k < |table|
      invariant 0 <= k <= |table|
      invariant arr == ApplyTable(data, ws[..k])
    {
      ApplyTableStep(data, ws, k);
      arr := ScanMarker(arr, Encode(table[k].marker), PlusPathAsWritten(st, env, table[k]));
      k := k + 1;
    }
    assert ws[..k] == ws;
  }

  /** BinaryPatcher::patchFile: read the whole file, scan it marker by marker, write it back. */
  method PatchFile(st: Settings, env: Env, disk: Disk, file: string) returns (ok: bool)
    modifies disk
    ensures (ok, disk.files) == PatchFileSpec(st, env, old(disk.files), file)
  {
    var path := QtPath(st, env, file);
    if !(path in disk.files && disk.files[path].readable) {
      return false;
    }
    var arr := ApplyAll(st, env, disk.files[path].data, Table(Major(st)));
    assert Rewrites(st, env, Table(Major(st))) == Patches(st, env);
    var written := Write(disk.files, path, arr);
    disk.files := written.1;
    ok := written.0;
  }

  /** The position of the first zero byte at or after i, or the end of the array. */
  function ZeroFrom(a: Bytes, i: nat): (z: nat)
    requires i <= |a|
    ensures i <= z <= |a|
    ensures forall j :: i <= j < z ==> a[j] != 0
    ensures z < |a| ==> a[z] == 0
    decreases |a| - i
  {
    if i == |a| || a[i] == 0 then i else ZeroFrom(a, i + 1)
  }

  /** The bytes from position i up to the first zero byte: how the library reads a location back. */
  function CString(a: Bytes, i: nat): (r: Bytes)
    requires i <= |a|
    ensures 0 !in r
  {
    a[i..ZeroFrom(a, i)]
  }

  /** A zero-free string followed by a zero byte is read back exactly. */
  lemma CStringOf(prefix: Bytes, s: Bytes, rest: Bytes)
    requires 0 !in s
    ensures CString(prefix + s + [0] + rest, |prefix|) == s
  {
    var a := prefix + s + [0] + rest;
    var e := |prefix| + |s|;
    var z := ZeroFrom(a, |prefix|);
    assert a[e] == 0;
    forall j | |prefix| <= j < e
      ensures a[j] != 0
    {
      assert a[j] == s[j - |prefix|];
      assert s[j - |prefix|] in s;
    }
    assert z == e;
    assert a[|prefix|..e] == s;
  }

  /**
   * As written: overwriting a location stored with its terminating zero by a
   * shorter one leaves the tail of the old location in front of the zero,
   * so the location read back is the new one followed by that tail.
   */
  lemma ShorterLocationKeepsOldTail(m: Bytes, oldLoc: Bytes, newLoc: Bytes, rest: Bytes)
    requires 0 !in oldLoc && 0 !in newLoc
    requires |newLoc| < |oldLoc|
    ensures CString(Overwrite(m + oldLoc + [0] + rest, 0, m + newLoc), |m|) == newLoc + oldLoc[|newLoc|..]
    ensures CString(Overwrite(m + oldLoc + [0] + rest, 0, m + newLoc), |m|) != newLoc
  {
    var a := m + oldLoc + [0] + rest;
    var w := m + newLoc;
    var tail := oldLoc[|newLoc|..];
    var s := newLoc + tail;
    assert |s| == |oldLoc|;
    assert a[|w|..] == tail + [0] + rest;
    assert Overwrite(a, 0, w) == w + (tail + [0] + rest);
    assert Overwrite(a, 0, w) == m + s + [0] + rest;
    CStringOf(m, s, rest);
    assert |s| > |newLoc|;
  }

  /** The overwrite with the terminating zero byte written after the new location. */
  function OverwriteTerminated(a: Bytes, i: nat, w: Bytes): (r: Bytes)
    requires i <= |a|
    ensures i + |w| < |a| ==> |r| == |a|
    ensures |r| > i + |w| && r[..i] == a[..i] && r[i..i + |w|] == w && r[i + |w|] == 0
  {
    var r := Overwrite(a, i, w + [0]);
    assert r[i..i + |w| + 1] == w + [0];
    assert r[i..i + |w|] == (w + [0])[..|w|];
    r
  }

  /**
   * Corrected: with the zero byte written, a location that fits in the old
   * one's room is read back exactly, whatever the old one was.
   */
  lemma TerminatedReadsBack(m: Bytes, oldLoc: Bytes, newLoc: Bytes, rest: Bytes)
    requires 0 !in newLoc
    requires |newLoc| <= |oldLoc|
    ensures CString(OverwriteTerminated(m + oldLoc + [0] + rest, 0, m + newLoc), |m|) == newLoc
  {
    var a := m + oldLoc + [0] + rest;
    var w := m + newLoc;
    var r := OverwriteTerminated(a, 0, w);
    assert r == m + newLoc + [0] + a[|w| + 1..];
    CStringOf(m, newLoc, a[|w| + 1..]);
  }

  /**
   * As written, a marker whose stored location is longer than the new one
   * reads back as the new location followed by the old location's tail.
   */
  lemma HitAsWrittenKeepsTail(st: Settings, env: Env, e: Entry, oldLoc: Bytes, rest: Bytes)
    requires 0 !in oldLoc && 0 !in Encode(NewLocation(st, env, e.suffix))
    requires |NewLocation(st, env, e.suffix)| < |oldLoc|
    ensures var a := Encode(e.marker) + oldLoc + [0] + rest;
      CString(Overwrite(a, 0, PlusPathAsWritten(st, env, e)), |e.marker|) != Encode(NewLocation(st, env, e.suffix))
  {
    var m, loc := Encode(e.marker), Encode(NewLocation(st, env, e.suffix));
    EncodeAppend(e.marker, NewLocation(st, env, e.suffix));
    ShorterLocationKeepsOldTail(m, oldLoc, loc, rest);
  }

  /**
   * With the zero byte written, a marker whose stored location has room for
   * the new one reads back as exactly the new location.
   */
  lemma HitReadsBack(st: Settings, env: Env, e: Entry, oldLoc: Bytes, rest: Bytes)
    requires 0 !in Encode(NewLocation(st, env, e.suffix))
    requires |NewLocation(st, env, e.suffix)| <= |oldLoc|
    ensures var a := Encode(e.marker) + oldLoc + [0] + rest;
      CString(Overwrite(a, 0, PlusPath(st, env, e)), |e.marker|) == Encode(NewLocation(st, env, e.suffix))
  {
    var m, loc := Encode(e.marker), Encode(NewLocation(st, env, e.suffix));
    EncodeAppend(e.marker, NewLocation(st, env, e.suffix));
    assert PlusPath(st, env, e) == m + loc + [0];
    TerminatedReadsBack(m, oldLoc, loc, rest);
  }

  /** The qmake executable of the host. */
  function QmakeName(st: Settings): string
  {
    if StartsWith(st.hostSpec, "win32") then "bin/qmake.exe" else "bin/qmake"
  }

  const StaticCores: set<string> := {"lib/Qt5Core.lib", "lib/Qt5Cored.lib", "lib/libQt5Core.a"}

  /** The dynamic Qt 5 core library: the DLLs on Windows, the framework or dylib on macOS, the shared object elsewhere. */
  function DynamicCore5(st: Settings, env: Env, fs: FS): (r: seq<string>)
    ensures forall c :: c in r ==> QtExists(st, env, fs, c) && c !in StaticCores
  {
    var cands :=
      if StartsWith(st.hostSpec, "win32") then ["bin/Qt5Core.dll", "bin/Qt5Cored.dll"]
      else if StartsWith(st.hostSpec, "macx") then
        (if QtExists(st, env, fs, "lib/QtCore.framework/QtCore") then ["lib/QtCore.framework/QtCore"]
         else ["lib/libQt5Core.dylib"])
      else ["lib/libQt5Core.so"];
    DynamicNotStatic(cands);
    Existing(st, env, fs, cands)
  }

  /** None of the dynamic core library names is a static one. */
  lemma DynamicNotStatic(cands: seq<string>)
    requires cands in {["bin/Qt5Core.dll", "bin/Qt5Cored.dll"], ["lib/QtCore.framework/QtCore"], ["lib/libQt5Core.dylib"], ["lib/libQt5Core.so"]}
    ensures forall c :: c in cands ==> c !in StaticCores
  {
  }

  /** The static Qt 5 core library: the MSVC import libraries or the archive. */
  function StaticCore5(st: Settings, env: Env, fs: FS): (r: seq<string>)
    ensures forall c :: c in r ==> QtExists(st, env, fs, c) && c in StaticCores
  {
    if Contains(st.hostSpec, "msvc") then Existing(st, env, fs, ["lib/Qt5Core.lib", "lib/Qt5Cored.lib"])
    else Existing(st, env, fs, ["lib/libQt5Core.a"])
  }

  /**
   * The files BinaryPatcher looks for in a Qt 5 installation: qmake, and
   * for a native build the core library, static only when no dynamic one
   * exists.
   */
  function Find5(st: Settings, env: Env, fs: FS): (r: seq<string>)
    ensures forall c :: c in r ==> QtExists(st, env, fs, c)
  {
    var qmake := Existing(st, env, fs, [QmakeName(st)]);
    if st.hostSpec != st.crossSpec then qmake
    else
      var dynamic := DynamicCore5(st, env, fs);
      qmake + dynamic + (if dynamic != [] then [] else StaticCore5(st, env, fs))
  }

  /** The files BinaryPatcher looks for in a Qt 4 installation: no static builds, and nothing but qmake on macOS. */
  function Find4(st: Settings, env: Env, fs: FS): (r: seq<string>)
    ensures forall c :: c in r ==> QtExists(st, env, fs, c)
  {
    var qmake := Existing(st, env, fs, [QmakeName(st)]);
    if st.hostSpec != st.crossSpec then qmake
    else if StartsWith(st.hostSpec, "win32") then
      qmake + Existing(st, env, fs, ["bin/QtCore4.dll", "bin/QtCored4.dll", "lib/QtCore4.dll", "lib/QtCored4.dll"])
    else if StartsWith(st.hostSpec, "macx") then qmake
    else qmake + Existing(st, env, fs, ["lib/libQtCore.so.4"])
  }

  /** BinaryPatcher::findFileToPatch: by major version, nothing for versions other than 4 and 5. */
  function FindFileToPatch(st: Settings, env: Env, fs: FS): (r: seq<string>)
    ensures Major(st) != 4 && Major(st) != 5 ==> r == []
    ensures forall c :: c in r ==> QtExists(st, env, fs, c)
    ensures st.hostSpec != st.crossSpec ==> forall c :: c in r ==> c == QmakeName(st)
  {
    if Major(st) == 5 then Find5(st, env, fs)
    else if Major(st) == 4 then Find4(st, env, fs)
    else []
  }

  /** For Qt 5, a static core library is chosen only when no dynamic one was found. */
  lemma StaticOnlyWithoutDynamic(st: Settings, env: Env, fs: FS)
    requires Major(st) == 5
    ensures var r := FindFileToPatch(st, env, fs);
      (exists c :: c in r && c in StaticCores) ==> forall c :: c in r ==> c in StaticCores || c == QmakeName(st)
  {
    var r := FindFileToPatch(st, env, fs);
    var qmake := Existing(st, env, fs, [QmakeName(st)]);
    var dynamic := DynamicCore5(st, env, fs);
    if st.hostSpec == st.crossSpec && dynamic != [] {
      assert r == qmake + dynamic + [];
      assert forall c :: c in r ==> c !in StaticCores || c == QmakeName(st);
      assert StaticCores !! {QmakeName(st)};
    }
  }

  /** The host's qmake is patched whenever it is there, ahead of any library. */
  lemma QmakeFirst(st: Settings, env: Env, fs: FS)
    requires Major(st) == 4 || Major(st) == 5
    ensures var r := FindFileToPatch(st, env, fs);
      QtExists(st, env, fs, QmakeName(st)) <==> |r| > 0 && r[0] == QmakeName(st)
  {
    var r := FindFileToPatch(st, env, fs);
    var q := QmakeName(st);
    var qmake := Existing(st, env, fs, [q]);
    if QtExists(st, env, fs, q) {
      assert qmake == [q];
      assert r[..1] == qmake;
    } else {
      assert qmake == [];
      if |r| > 0 {
        assert r[0] in r;
        assert r[0] != q;
      }
    }
  }
}
