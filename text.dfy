/**
 * String helpers with the semantics of the QString operations the relocation
 * engine uses: prefix and substring tests, trimming, splitting on one
 * character, joining, and the two backslash rewrites applied to paths that
 * appear inside configuration files.
 */
module Text {

  /**
   * QChar::isSpace: the five control characters from tab to carriage
   * return, U+0085, and every Unicode space, line or paragraph separator.
   */
  predicate IsSpace(c: char)
  {
    c == ' ' || c == '\t' || c == '\n' || c == '\r' || c == '\U{000B}' || c == '\U{000C}'
    || c == '\U{0085}' || c == '\U{00A0}' || c == '\U{1680}'
    || ('\U{2000}' <= c <= '\U{200A}')
    || c == '\U{2028}' || c == '\U{2029}' || c == '\U{202F}' || c == '\U{205F}' || c == '\U{3000}'
  }

  /** QString::contains(QRegExp("\\s")). */
  predicate HasWhitespace(s: string)
  {
    exists i :: 0 <= i < |s| && IsSpace(s[i])
  }

  /** No character of s is whitespace. */
  predicate NoSpace(s: string)
  {
    forall c :: c in s ==> !IsSpace(c)
  }

  /** Text made of the characters of a text without whitespace, and of one more non-space character, has none either. */
  lemma NoSpaceFrom(s: string, r: string, extra: char)
    requires NoSpace(s) && !IsSpace(extra)
    requires forall c :: c in r ==> c in s || c == extra
    ensures NoSpace(r)
  {
  }

  lemma NoSpaceNoWhitespace(s: string)
    ensures NoSpace(s) <==> !HasWhitespace(s)
  {
    if !NoSpace(s) {
      var c :| c in s && IsSpace(c);
      var i :| 0 <= i < |s| && s[i] == c;
    }
  }

  predicate StartsWith(s: string, prefix: string)
  {
    |prefix| <= |s| && s[..|prefix|] == prefix
  }

  /** QString::contains(sub): some position of s starts with sub. */
  predicate Contains(s: string, sub: string)
    decreases |s|
  {
    StartsWith(s, sub) || (|s| > 0 && Contains(s[1..], sub))
  }

  /** sub occurs in s at position i. */
  predicate OccursAt(s: string, sub: string, i: nat)
  {
    i + |sub| <= |s| && s[i..i + |sub|] == sub
  }

  lemma {:induction false} ContainsAt(s: string, sub: string, i: nat)
    requires OccursAt(s, sub, i)
    ensures Contains(s, sub)
    decreases i
  {
    if i > 0 {
      assert s[1..][i - 1..i - 1 + |sub|] == sub;
      ContainsAt(s[1..], sub, i - 1);
    }
  }

  lemma {:induction false} ContainsWitness(s: string, sub: string)
    requires Contains(s, sub)
    ensures exists i: nat :: OccursAt(s, sub, i)
    decreases |s|
  {
    if StartsWith(s, sub) {
      assert s[0..0 + |sub|] == sub;
      assert OccursAt(s, sub, 0);
    } else {
      ContainsWitness(s[1..], sub);
      var i: nat :| OccursAt(s[1..], sub, i);
      assert s[i + 1..i + 1 + |sub|] == s[1..][i..i + |sub|];
      assert OccursAt(s, sub, i + 1);
    }
  }

  /** The characters of sub all occur in s when s contains sub. */
  lemma ContainsChar(s: string, sub: string, c: char)
    requires Contains(s, sub) && c in sub
    ensures c in s
  {
    ContainsWitness(s, sub);
    var i: nat :| OccursAt(s, sub, i);
    var j :| 0 <= j < |sub| && sub[j] == c;
    assert s[i + j] == s[i..i + |sub|][j];
  }

  /** QString::indexOf(c): the first position of c, or -1. */
  function IndexOfChar(s: string, c: char): (r: int)
    ensures -1 <= r < |s|
    ensures r == -1 <==> c !in s
    ensures r >= 0 ==> s[r] == c && c !in s[..r]
  {
    if |s| == 0 then -1
    else if s[0] == c then 0
    else
      var k := IndexOfChar(s[1..], c);
      assert s[1..] == s[1..|s|];
      if k == -1 then -1
      else
        assert s[..k + 1] == [s[0]] + s[1..][..k];
        k + 1
  }

  /** The first c in a + [c] + b, for an a without c, is the one after a. */
  lemma {:induction false} IndexOfCharAfter(a: string, c: char, b: string)
    requires c !in a
    ensures IndexOfChar(a + [c] + b, c) == |a|
    decreases |a|
  {
    if |a| > 0 {
      assert (a + [c] + b)[1..] == a[1..] + [c] + b;
      IndexOfCharAfter(a[1..], c, b);
    }
  }

  /** QString::mid(n): the suffix from position n, empty past the end. */
  function Mid(s: string, n: nat): (r: string)
    ensures n <= |s| ==> r == s[n..]
    ensures n > |s| ==> r == []
  {
    if n <= |s| then s[n..] else []
  }

  /** QString::chop(n): drop the last n characters, empty if there are fewer. */
  function Chop(s: string, n: nat): (r: string)
    ensures n <= |s| ==> r == s[..|s| - n]
    ensures n > |s| ==> r == []
  {
    if n <= |s| then s[..|s| - n] else []
  }

  function TrimStart(s: string): (r: string)
    ensures |r| <= |s| && r == s[|s| - |r|..]
    ensures |r| > 0 ==> !IsSpace(r[0])
    ensures forall i :: 0 <= i < |s| - |r| ==> IsSpace(s[i])
  {
    if |s| > 0 && IsSpace(s[0]) then TrimStart(s[1..]) else s
  }

  function TrimEnd(s: string): (r: string)
    ensures |r| <= |s| && r == s[..|r|]
    ensures |r| > 0 ==> !IsSpace(r[|r| - 1])
    ensures forall i :: |r| <= i < |s| ==> IsSpace(s[i])
  {
    if |s| > 0 && IsSpace(s[|s| - 1]) then TrimEnd(s[..|s| - 1]) else s
  }

  /** QString::trimmed. */
  function Trim(s: string): string
  {
    TrimEnd(TrimStart(s))
  }

  /** The trimmed text is made of characters of the text. */
  lemma TrimChars(s: string)
    ensures forall c :: c in Trim(s) ==> c in s
  {
    var a := TrimStart(s);
    assert forall c :: c in a ==> c in s;
  }

  /** Trimming keeps the first character of a string that does not start with whitespace. */
  lemma TrimKeepsFirst(s: string)
    requires |s| > 0 && !IsSpace(s[0])
    ensures |Trim(s)| > 0 && Trim(s)[0] == s[0]
  {
    assert TrimStart(s) == s;
  }

  /** A string that neither starts nor ends with whitespace is its own trim. */
  lemma TrimNoEdges(s: string)
    requires |s| > 0 ==> !IsSpace(s[0]) && !IsSpace(s[|s| - 1])
    ensures Trim(s) == s
  {
  }

  /** Trimming a line made of a text without edge whitespace and a newline gives the text back. */
  lemma TrimLine(s: string)
    requires |s| > 0 ==> !IsSpace(s[0]) && !IsSpace(s[|s| - 1])
    ensures Trim(s + "\n") == s
  {
    var t := s + "\n";
    if |s| == 0 {
      assert TrimStart(t) == [];
    } else {
      assert TrimStart(t) == t;
      assert t[..|t| - 1] == s;
      assert TrimEnd(t) == TrimEnd(s);
    }
  }

  /**
   * A line made of a key that starts with a visible character, a value, a
   * closing quote and a newline trims to key + value + quote, and cutting the
   * key and the quote off again gives the value.
   */
  lemma QuotedLine(key: string, v: string)
    requires |key| > 0 && !IsSpace(key[0])
    ensures Trim(key + v + "'\n") == key + v + "'"
    ensures StartsWith(key + v + "'", key)
    ensures Chop(Mid(key + v + "'", |key|), 1) == v
  {
    var body := key + v + "'";
    assert body[0] == key[0] && body[|body| - 1] == '\'';
    TrimLine(body);
    assert body + "\n" == key + v + "'\n";
    assert body[..|key|] == key;
    assert body[|key|..] == v + "'";
    assert (v + "'")[..|v|] == v;
  }

  /** The value cut out of a quoted line: trimmed, the key and the closing quote taken off. */
  lemma QuotedValue(key: string, v: string)
    requires |key| > 0 && !IsSpace(key[0])
    ensures Chop(Mid(Trim(key + v + "'\n"), |key|), 1) == v
  {
    QuotedLine(key, v);
  }

  /** a + b starts with a, and what follows a is b. */
  lemma StartsWithConcat(a: string, b: string)
    ensures StartsWith(a + b, a) && (a + b)[|a|..] == b
  {
    assert (a + b)[..|a|] == a;
  }

  /** A text that differs from p at some position of p does not start with p. */
  lemma DiffersAt(s: string, p: string, i: int)
    requires 0 <= i < |p| && i < |s| && s[i] != p[i]
    ensures !StartsWith(s, p)
  {
    assert |p| <= |s| ==> s[..|p|][i] == s[i];
  }

  /** A text that starts with p + q starts with p. */
  lemma StartsWithShorter(s: string, p: string, q: string)
    requires StartsWith(s, p + q)
    ensures StartsWith(s, p)
  {
    assert s[..|p|] == (p + q)[..|p|];
  }

  /** A text that does not start with p starts with no extension of p. */
  lemma NotStartsWithLonger(s: string, p: string, q: string)
    requires !StartsWith(s, p)
    ensures !StartsWith(s, p + q)
  {
    if StartsWith(s, p + q) {
      StartsWithShorter(s, p, q);
    }
  }

  predicate AllSpace(s: string)
  {
    forall c :: c in s ==> IsSpace(c)
  }

  lemma {:induction false} TrimStartPadded(pre: string, s: string)
    requires AllSpace(pre)
    requires |s| > 0 ==> !IsSpace(s[0])
    ensures TrimStart(pre + s) == s
    decreases |pre|
  {
    if |pre| > 0 {
      assert (pre + s)[0] == pre[0];
      assert (pre + s)[1..] == pre[1..] + s;
      TrimStartPadded(pre[1..], s);
    } else {
      assert pre + s == s;
    }
  }

  lemma {:induction false} TrimEndPadded(s: string, post: string)
    requires AllSpace(post)
    requires |s| > 0 ==> !IsSpace(s[|s| - 1])
    ensures TrimEnd(s + post) == s
    decreases |post|
  {
    if |post| > 0 {
      var t := s + post;
      assert t[|t| - 1] == post[|post| - 1];
      assert t[..|t| - 1] == s + post[..|post| - 1];
      TrimEndPadded(s, post[..|post| - 1]);
    } else {
      assert s + post == s;
    }
  }

  /** Whitespace around a text without edge whitespace is exactly what trimming removes. */
  lemma TrimPadded(pre: string, s: string, post: string)
    requires AllSpace(pre) && AllSpace(post)
    requires |s| > 0 ==> !IsSpace(s[0]) && !IsSpace(s[|s| - 1])
    ensures Trim(pre + s + post) == s
  {
    if |s| > 0 {
      assert pre + s + post == pre + (s + post);
      TrimStartPadded(pre, s + post);
      TrimEndPadded(s, post);
    } else {
      assert pre + s + post == pre + post;
      TrimStartPadded(pre + post, "");
    }
  }

  /** QString::split(c) keeping empty parts. */
  function Split(s: string, c: char): (r: seq<string>)
    ensures |r| > 0
    ensures forall k :: 0 <= k < |r| ==> c !in r[k]
    decreases |s|
  {
    var i := IndexOfChar(s, c);
    if i == -1 then [s] else [s[..i]] + Split(s[i + 1..], c)
  }

  /** Every part of a split is made of characters of the string split. */
  lemma {:induction false} SplitChars(s: string, c: char)
    ensures forall k, ch :: 0 <= k < |Split(s, c)| && ch in Split(s, c)[k] ==> ch in s
    decreases |s|
  {
    var i := IndexOfChar(s, c);
    if i != -1 {
      SplitChars(s[i + 1..], c);
      assert forall ch :: ch in s[..i] ==> ch in s;
      assert forall ch :: ch in s[i + 1..] ==> ch in s;
    }
  }

  /** QStringList::join(c). */
  function Join(parts: seq<string>, c: char): string
  {
    if |parts| == 0 then ""
    else if |parts| == 1 then parts[0]
    else parts[0] + [c] + Join(parts[1..], c)
  }

  /** Splitting parts joined by a character they do not contain gives the parts back. */
  lemma {:induction false} SplitJoin(parts: seq<string>, c: char)
    requires |parts| > 0
    requires forall k :: 0 <= k < |parts| ==> c !in parts[k]
    ensures Split(Join(parts, c), c) == parts
  {
    if |parts| > 1 {
      var a, rest := parts[0], Join(parts[1..], c);
      assert c !in a;
      SplitCons(a, c, rest);
      assert forall k :: 0 <= k < |parts[1..]| ==> parts[1..][k] == parts[k + 1];
      SplitJoin(parts[1..], c);
      assert parts == [a] + parts[1..];
    } else {
      assert c !in parts[0];
    }
  }

  /** Splitting stops at the first separator. */
  lemma SplitCons(a: string, c: char, rest: string)
    requires c !in a
    ensures Split(a + [c] + rest, c) == [a] + Split(rest, c)
  {
    var s := a + [c] + rest;
    IndexOfCharAfter(a, c, rest);
    assert s[..|a|] == a && s[|a| + 1..] == rest;
  }

  /** The first two parts of a split, for parts without the separator. */
  lemma SplitFirstTwo(a: string, b: string, c: char, rest: string)
    requires c !in a && c !in b
    ensures |Split(a + [c] + b + [c] + rest, c)| >= 2
    ensures Split(a + [c] + b + [c] + rest, c)[0] == a
    ensures Split(a + [c] + b + [c] + rest, c)[1] == b
  {
    var r2 := b + [c] + rest;
    assert a + [c] + b + [c] + rest == a + [c] + r2;
    SplitCons(b, c, rest);
    SplitCons(a, c, r2);
  }

  /** Joining the parts of a split gives back the original string. */
  lemma {:induction false} JoinSplit(s: string, c: char)
    ensures Join(Split(s, c), c) == s
    decreases |s|
  {
    var i := IndexOfChar(s, c);
    if i != -1 {
      JoinSplit(s[i + 1..], c);
      assert s == s[..i] + [c] + s[i + 1..];
    }
  }

  /** The non-empty parts of a sequence of strings, in order. */
  function NonEmpty(parts: seq<string>): (r: seq<string>)
    ensures |r| <= |parts|
    ensures forall k :: 0 <= k < |r| ==> r[k] != [] && r[k] in parts
  {
    if |parts| == 0 then []
    else if parts[0] == [] then NonEmpty(parts[1..])
    else [parts[0]] + NonEmpty(parts[1..])
  }

  lemma {:induction false} NonEmptyOfNonEmpty(parts: seq<string>)
    requires forall k :: 0 <= k < |parts| ==> parts[k] != []
    ensures NonEmpty(parts) == parts
  {
    if |parts| > 0 {
      NonEmptyOfNonEmpty(parts[1..]);
    }
  }

  /** QString::split(c, QString::SkipEmptyParts). */
  function SplitSkipEmpty(s: string, c: char): (r: seq<string>)
    ensures forall k :: 0 <= k < |r| ==> r[k] != [] && c !in r[k]
  {
    var parts := Split(s, c);
    var r := NonEmpty(parts);
    assert forall k :: 0 <= k < |r| ==> r[k] in parts;
    r
  }

  /** Every part of a split with empty parts skipped is made of characters of the string split. */
  lemma SplitSkipEmptyChars(s: string, c: char)
    ensures forall k, ch :: 0 <= k < |SplitSkipEmpty(s, c)| && ch in SplitSkipEmpty(s, c)[k] ==> ch in s
  {
    SplitChars(s, c);
    var parts := Split(s, c);
    var r := NonEmpty(parts);
    forall k, ch | 0 <= k < |r| && ch in r[k]
      ensures ch in s
    {
      var j :| 0 <= j < |parts| && parts[j] == r[k];
    }
  }

  /** Non-empty tokens without the separator, joined by it, split back into the same tokens, empty parts skipped. */
  lemma SplitSkipEmptyJoin(parts: seq<string>, c: char)
    requires forall k :: 0 <= k < |parts| ==> parts[k] != [] && c !in parts[k]
    ensures SplitSkipEmpty(Join(parts, c), c) == parts
  {
    if |parts| > 0 {
      SplitJoin(parts, c);
      NonEmptyOfNonEmpty(parts);
    } else {
      assert Split("", c) == [""];
    }
  }

  /** Words joined by spaces between a key and a closing quote read back, key and quote cut off, as the same words. */
  lemma QuotedWords(key: string, words: seq<string>)
    requires |key| > 0 && !IsSpace(key[0])
    requires forall k :: 0 <= k < |words| ==> words[k] != [] && ' ' !in words[k]
    ensures SplitSkipEmpty(Chop(Mid(Trim(key + Join(words, ' ') + "'\n"), |key|), 1), ' ') == words
  {
    QuotedLine(key, Join(words, ' '));
    SplitSkipEmptyJoin(words, ' ');
  }

  /** QString::replace("\\\\", "\\"): each pair of backslashes, left to right, becomes one. */
  function Unescape(s: string): (r: string)
    ensures |r| <= |s|
    ensures forall c :: c in r ==> c in s
  {
    if |s| >= 2 && s[0] == '\\' && s[1] == '\\' then ['\\'] + Unescape(s[2..])
    else if |s| == 0 then []
    else [s[0]] + Unescape(s[1..])
  }

  /** QString::replace("\\", "\\\\"): every backslash is doubled. */
  function Escape(s: string): (r: string)
    ensures |r| >= |s|
    ensures '\\' !in s ==> r == s
    ensures forall c :: c in r ==> c in s
    ensures |s| > 0 ==> r[0] == s[0]
  {
    if |s| == 0 then []
    else if s[0] == '\\' then ['\\', '\\'] + Escape(s[1..])
    else [s[0]] + Escape(s[1..])
  }

  /** Unescaping undoes escaping: the round trip used when a rewritten path is read back. */
  lemma {:induction false} UnescapeEscape(s: string)
    ensures Unescape(Escape(s)) == s
  {
    if |s| > 0 {
      UnescapeEscape(s[1..]);
      if s[0] == '\\' {
        assert Escape(s) == ['\\', '\\'] + Escape(s[1..]);
        assert Escape(s)[2..] == Escape(s[1..]);
      } else {
        assert Escape(s)[1..] == Escape(s[1..]);
      }
    }
  }

  /** Unescaping changes nothing in a string without backslashes. */
  lemma {:induction false} UnescapePlain(s: string)
    requires '\\' !in s
    ensures Unescape(s) == s
  {
    if |s| > 0 {
      assert '\\' !in s[1..];
      UnescapePlain(s[1..]);
    }
  }

  /** No two backslashes stand next to each other. */
  predicate NoDoubleBackslash(s: string)
  {
    forall i :: 0 <= i < |s| - 1 ==> !(s[i] == '\\' && s[i + 1] == '\\')
  }

  /** Unescaping changes nothing in a string without a pair of adjacent backslashes. */
  lemma {:induction false} UnescapeSingle(s: string)
    requires NoDoubleBackslash(s)
    ensures Unescape(s) == s
  {
    if |s| > 0 {
      assert NoDoubleBackslash(s[1..]) by {
        forall i | 0 <= i < |s[1..]| - 1
          ensures !(s[1..][i] == '\\' && s[1..][i + 1] == '\\')
        {
          assert s[1..][i] == s[i + 1] && s[1..][i + 1] == s[i + 2];
        }
      }
      UnescapeSingle(s[1..]);
    }
  }

  /** Every occurrence of one character replaced by another. */
  function ReplaceChar(s: string, from: char, to: char): (r: string)
    ensures |r| == |s|
    ensures forall i :: 0 <= i < |s| ==> r[i] == (if s[i] == from then to else s[i])
    ensures forall c :: c in r ==> c in s || c == to
    ensures from != to ==> from !in r
  {
    seq(|s|, i requires 0 <= i < |s| => if s[i] == from then to else s[i])
  }
}
