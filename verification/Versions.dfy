/** The downgrade test of internal/selfupdate/selfupdate.go, on version texts. */
module Versions {
  import opened Wrappers
  import opened Strings

  const MAX_UINT64 := 0xFFFF_FFFF_FFFF_FFFF
  const MAX_INT64 := 0x7FFF_FFFF_FFFF_FFFF

  datatype Triple = Triple(major: int, minor: int, patch: int)

  const ZERO := Triple(0, 0, 0)

  predicate IsDigit(c: char) {
    '0' <= c <= '9'
  }

  function Value(c: char): nat
    requires IsDigit(c)
  {
    c as nat - '0' as nat
  }

  /** strconv.ParseUint, base 10: stops at the first character that is no digit or that overflows. */
  function ParseUint(s: string, acc: nat): Option<nat> {
    if s == "" then Some(acc)
    else if !IsDigit(s[0]) then None
    else
      var n := acc * 10 + Value(s[0]);
      if n > MAX_UINT64 then Some(MAX_UINT64) else ParseUint(s[1..], n)
  }

  /** strconv.Atoi with its error ignored: bad syntax reads as 0, a number out of range as the nearest int64. */
  function Atoi(s: string): int {
    var signed := s != "" && (s[0] == '-' || s[0] == '+');
    var digits := if signed then s[1..] else s;
    var parsed := if digits == "" then None else ParseUint(digits, 0);
    match parsed
    case None => 0
    case Some(n) =>
      if signed && s[0] == '-' then (if n > MAX_INT64 + 1 then -MAX_INT64 - 1 else -n)
      else if n > MAX_INT64 then MAX_INT64 else n
  }

  /** parseSemver: two dots cut the text in three; the third part ends at its first hyphen. */
  function ParseSemver(version: string): Triple {
    var v := TrimPrefix(version, "v");
    var i := IndexOf(v, '.');
    if i == |v| then ZERO else ParseRest(v[..i], v[i + 1..])
  }

  function ParseRest(major: string, rest: string): Triple {
    var j := IndexOf(rest, '.');
    if j == |rest| then ZERO
    else
      var patch := rest[j + 1..];
      Triple(Atoi(major), Atoi(rest[..j]), Atoi(patch[..IndexOf(patch, '-')]))
  }

  predicate IsDowngrade(current: string, next: string) {
    var c, n := ParseSemver(current), ParseSemver(next);
    if n.major != c.major then n.major < c.major
    else if n.minor != c.minor then n.minor < c.minor
    else n.patch < c.patch
  }

  // ---------- what it does with versions as releases write them ----------

  function Digit(d: nat): char
    requires d < 10
  {
    '0' + d as char
  }

  function Decimal(n: nat): string {
    if n < 10 then [Digit(n)] else Decimal(n / 10) + [Digit(n % 10)]
  }

  datatype Release = Release(v: bool, major: nat, minor: nat, patch: nat, suffix: string)

  /** Numbers in range, and nothing or a hyphen after them. */
  predicate WellFormed(r: Release) {
    && r.major <= MAX_INT64 && r.minor <= MAX_INT64 && r.patch <= MAX_INT64
    && (r.suffix == "" || r.suffix[0] == '-')
  }

  /** Three parts with dots between them, and what follows the third. */
  function Dotted(major: string, minor: string, patch: string, suffix: string): string {
    major + (['.'] + (minor + (['.'] + (patch + suffix))))
  }

  function Text(r: Release): string {
    var numbers := Dotted(Decimal(r.major), Decimal(r.minor), Decimal(r.patch), r.suffix);
    if r.v then ['v'] + numbers else numbers
  }

  lemma {:induction false} DecimalIsDigits(n: nat)
    ensures Decimal(n) != "" && forall k :: 0 <= k < |Decimal(n)| ==> IsDigit(Decimal(n)[k])
  {
    if n >= 10 { DecimalIsDigits(n / 10); }
  }

  /** Digits read so far that did not overflow can be carried on from. */
  lemma {:induction false} ParseUintConcat(s: string, acc: nat, rest: string, m: nat)
    requires ParseUint(s, acc) == Some(m) && m < MAX_UINT64
    ensures ParseUint(s + rest, acc) == ParseUint(rest, m)
  {
    if s == "" {
      assert s + rest == rest;
    } else {
      assert (s + rest)[1..] == s[1..] + rest;
      ParseUintConcat(s[1..], acc * 10 + Value(s[0]), rest, m);
    }
  }

  lemma {:induction false} ParseUintReadsDecimal(n: nat)
    requires n <= 0xFFFF_FFFF_FFFF_FFFF
    ensures ParseUint(Decimal(n), 0) == Some(n)
  {
    if n < 10 {
      assert [Digit(n)][1..] == "";
    } else {
      ParseUintReadsDecimal(n / 10);
      ParseUintConcat(Decimal(n / 10), 0, [Digit(n % 10)], n / 10);
      assert [Digit(n % 10)][1..] == "";
    }
  }

  /** Numbers, with or without a sign, are read as they are, and cut off at the ends of a 64-bit int. */
  lemma AtoiReadsNumbers(n: nat)
    requires n <= 0xFFFF_FFFF_FFFF_FFFF
    ensures Atoi(Decimal(n)) == Atoi(['+'] + Decimal(n)) == if n <= 0x7FFF_FFFF_FFFF_FFFF then n else 0x7FFF_FFFF_FFFF_FFFF
    ensures Atoi(['-'] + Decimal(n)) == -(if n <= 0x8000_0000_0000_0000 then n else 0x8000_0000_0000_0000)
  {
    DecimalIsDigits(n);
    ParseUintReadsDecimal(n);
    assert IsDigit(Decimal(n)[0]);
    assert (['+'] + Decimal(n))[1..] == Decimal(n) == (['-'] + Decimal(n))[1..];
  }

  /** A number with anything else after it is no number, and neither is a sign alone. */
  lemma AtoiRejectsJunk(n: nat, c: char, rest: string)
    requires n <= 0x7FFF_FFFF_FFFF_FFFF && !('0' <= c <= '9')
    ensures Atoi(Decimal(n) + ([c] + rest)) == 0
    ensures Atoi("+") == Atoi("-") == Atoi("") == 0
  {
    var s := Decimal(n) + ([c] + rest);
    DecimalIsDigits(n);
    ParseUintReadsDecimal(n);
    ParseUintConcat(Decimal(n), 0, [c] + rest, n);
    assert IsDigit(Decimal(n)[0]) && s[0] == Decimal(n)[0];
  }

  lemma AtoiReadsDecimal(n: nat)
    requires n <= MAX_INT64
    ensures Atoi(Decimal(n)) == n
  {
    AtoiReadsNumbers(n);
  }

  /** A part before the character that ends it, and what is left after that. */
  lemma CutAt(part: string, c: char, rest: string)
    requires c !in part
    ensures var s := part + ([c] + rest);
            var i := IndexOf(s, c);
            i == |part| < |s| && s[..i] == part && s[i + 1..] == rest
  {
    IndexOfFirst(part, c, [c] + rest);
  }

  lemma ParseRestReads(major: string, minor: string, patch: string, suffix: string)
    requires '.' !in minor && '-' !in patch && (suffix == "" || suffix[0] == '-')
    ensures ParseRest(major, minor + (['.'] + (patch + suffix))) == Triple(Atoi(major), Atoi(minor), Atoi(patch))
  {
    CutAt(minor, '.', patch + suffix);
    IndexOfFirst(patch, '-', suffix);
  }

  /** What parseSemver makes of any text with two dots: each part counts for itself, so one that is no
      number is 0 and leaves the others as they are. */
  lemma ParseSemverReadsParts(major: string, minor: string, patch: string, suffix: string)
    requires '.' !in major && '.' !in minor && '-' !in patch && (suffix == "" || suffix[0] == '-')
    requires major != "" ==> major[0] != 'v'
    ensures ParseSemver(Dotted(major, minor, patch, suffix)) ==
            ParseSemver(['v'] + Dotted(major, minor, patch, suffix)) ==
            Triple(Atoi(major), Atoi(minor), Atoi(patch))
  {
    var text := Dotted(major, minor, patch, suffix);
    assert text[0] != 'v';
    assert TrimPrefix(['v'] + text, "v") == TrimPrefix(text, "v") == text;
    CutAt(major, '.', minor + (['.'] + (patch + suffix)));
    ParseRestReads(major, minor, patch, suffix);
  }

  /** A part that starts neither with a digit nor with a sign is 0. */
  lemma NoNumberIsZero(part: string)
    requires part != "" ==> !IsDigit(part[0]) && part[0] != '+' && part[0] != '-'
    ensures Atoi(part) == 0
  {
  }

  /** parseSemver inverts the writing of a release, whatever follows the hyphen. */
  lemma ParseSemverReadsReleases(r: Release)
    requires WellFormed(r)
    ensures ParseSemver(Text(r)) == Triple(r.major, r.minor, r.patch)
  {
    DecimalIsDigits(r.major);
    DecimalIsDigits(r.minor);
    DecimalIsDigits(r.patch);
    ParseSemverReadsParts(Decimal(r.major), Decimal(r.minor), Decimal(r.patch), r.suffix);
    AtoiReadsDecimal(r.major);
    AtoiReadsDecimal(r.minor);
    AtoiReadsDecimal(r.patch);
  }

  predicate Earlier(a: Release, b: Release) {
    || a.major < b.major
    || (a.major == b.major && (a.minor < b.minor || (a.minor == b.minor && a.patch < b.patch)))
  }

  /** Among releases the test refuses exactly the earlier ones; a leading v and a suffix do not count,
      so a pre-release is no downgrade from its release. */
  lemma DowngradeIsEarlierRelease(current: Release, next: Release)
    requires WellFormed(current) && WellFormed(next)
    ensures IsDowngrade(Text(current), Text(next)) <==> Earlier(next, current)
  {
    ParseSemverReadsReleases(current);
    ParseSemverReadsReleases(next);
  }

  /** The text, without a leading v, has no second dot. */
  predicate Unreadable(version: string) {
    var v := TrimPrefix(version, "v");
    forall i, j :: 0 <= i < j < |v| ==> !(v[i] == '.' && v[j] == '.')
  }

  lemma UnreadableIsZero(version: string)
    requires Unreadable(version)
    ensures ParseSemver(version) == ZERO
  {
    var v := TrimPrefix(version, "v");
    var i := IndexOf(v, '.');
    if i < |v| {
      var rest := v[i + 1..];
      assert forall k :: 0 <= k < |rest| ==> rest[k] == v[i + 1 + k];
    }
  }

  /** A text with fewer than two dots ranks as 0.0.0: running it refuses no release, and a release
      refuses it unless it is 0.0.0 itself. */
  lemma UnreadableVersionsRankLast(text: string, r: Release)
    requires Unreadable(text) && WellFormed(r)
    ensures !IsDowngrade(text, Text(r))
    ensures IsDowngrade(Text(r), text) <==> r.major > 0 || r.minor > 0 || r.patch > 0
  {
    UnreadableIsZero(text);
    ParseSemverReadsReleases(r);
  }
}
