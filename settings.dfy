/**
 * The settings every part of the relocation engine reads (ArgumentsAndSettings),
 * taken as one immutable record, the version number derived from the
 * version string, and the two ways the program reports trouble: warnings,
 * which are only printed, and fatal errors, which end the process.
 */
module Settings {
  import opened Wrappers
  import opened Text

  datatype Settings = Settings(
    qtDir: string,
    oldDir: string,
    newDir: string,
    hostSpec: string,
    crossSpec: string,
    qtVersion: string,
    buildDir: string,
    backupDir: string,
    force: bool,
    unknownParameters: seq<string>)

  /** The warnings whose emission the model tracks. */
  datatype Warning =
    | UnknownParameters
    | HostSpecMismatch(probed: string, configured: string)
    | CrossSpecMismatch(probed: string, configured: string)
    | VersionMismatch(probed: string, configured: string)
    | UnsupportedVersion
    | Qt4NoBuildDir
    | LinkedOpenSsl

  /** A computation that either finishes or ends the process through QBPLOGF (qFatal). */
  datatype Outcome<T> = Done(value: T) | Fatal(reason: string)

  predicate IsDigit(c: char)
  {
    '0' <= c <= '9'
  }

  /** The length of the run of decimal digits that starts s. */
  function LeadingDigits(s: string): (n: nat)
    ensures n <= |s|
    ensures forall i :: 0 <= i < n ==> IsDigit(s[i])
    ensures n < |s| ==> !IsDigit(s[n])
  {
    if |s| > 0 && IsDigit(s[0]) then 1 + LeadingDigits(s[1..]) else 0
  }

  function DigitValue(c: char): nat
  {
    if IsDigit(c) then c as int - '0' as int else 0
  }

  /** The value of a string of decimal digits. */
  function DigitsValue(s: string): nat
  {
    if |s| == 0 then 0 else 10 * DigitsValue(s[..|s| - 1]) + DigitValue(s[|s| - 1])
  }

  /** A number at the start of s and what follows it. */
  function Segment(s: string): Option<(nat, string)>
  {
    var n := LeadingDigits(s);
    if n == 0 then None else Some((DigitsValue(s[..n]), s[n..]))
  }

  /** QVersionNumber::fromString(v).majorVersion(): 0 when v does not start with a number. */
  function MajorVersion(v: string): nat
  {
    match Segment(v)
    case None => 0
    case Some((m, _)) => m
  }

  /** QVersionNumber::fromString(v).minorVersion(): the number after the first '.', or 0. */
  function MinorVersion(v: string): nat
  {
    match Segment(v)
    case None => 0
    case Some((_, rest)) =>
      if |rest| > 0 && rest[0] == '.' then
        match Segment(rest[1..])
        case None => 0
        case Some((m, _)) => m
      else 0
  }

  function Major(st: Settings): nat
  {
    MajorVersion(st.qtVersion)
  }

  function Minor(st: Settings): nat
  {
    MinorVersion(st.qtVersion)
  }

  /** The decimal digits of n, without leading zeros. */
  function DecimalString(n: nat): (s: string)
    ensures |s| > 0 && forall i :: 0 <= i < |s| ==> IsDigit(s[i])
    decreases n
  {
    var d := [(('0' as int) + n % 10) as char];
    if n < 10 then d else DecimalString(n / 10) + d
  }

  lemma {:induction false} DecimalValue(n: nat)
    ensures DigitsValue(DecimalString(n)) == n
    decreases n
  {
    var s := DecimalString(n);
    if n >= 10 {
      DecimalValue(n / 10);
      assert s[..|s| - 1] == DecimalString(n / 10);
    }
  }

  lemma {:induction false} LeadingDigitsOf(digits: string, rest: string)
    requires forall i :: 0 <= i < |digits| ==> IsDigit(digits[i])
    requires |rest| > 0 ==> !IsDigit(rest[0])
    ensures LeadingDigits(digits + rest) == |digits|
    decreases |digits|
  {
    if |digits| > 0 {
      assert (digits + rest)[1..] == digits[1..] + rest;
      LeadingDigitsOf(digits[1..], rest);
    } else {
      assert digits + rest == rest;
    }
  }

  lemma SegmentOf(n: nat, rest: string)
    requires |rest| > 0 ==> !IsDigit(rest[0])
    ensures Segment(DecimalString(n) + rest) == Some((n, rest))
  {
    var d := DecimalString(n);
    LeadingDigitsOf(d, rest);
    assert (d + rest)[..|d|] == d;
    assert (d + rest)[|d|..] == rest;
    DecimalValue(n);
  }

  /** A version written as "major.minor" followed by anything that is not a digit reads back as those two numbers. */
  lemma VersionRoundTrip(major: nat, minor: nat, rest: string)
    requires |rest| > 0 ==> !IsDigit(rest[0])
    ensures MajorVersion(DecimalString(major) + "." + DecimalString(minor) + rest) == major
    ensures MinorVersion(DecimalString(major) + "." + DecimalString(minor) + rest) == minor
  {
    var d1, d2 := DecimalString(major), DecimalString(minor);
    var tail := d2 + rest;
    var dotted := "." + tail;
    var v := d1 + "." + d2 + rest;
    assert v == d1 + dotted;
    SegmentOf(major, dotted);
    assert Segment(v) == Some((major, dotted));
    assert dotted[1..] == tail;
    SegmentOf(minor, rest);
    assert Segment(tail) == Some((minor, rest));
  }

  /** A version string that does not start with a digit has major and minor version 0. */
  lemma VersionOfNonNumber(v: string)
    requires |v| == 0 || !IsDigit(v[0])
    ensures MajorVersion(v) == 0 && MinorVersion(v) == 0
  {
  }
}
