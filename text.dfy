/**
  The few pieces of Python's `str` behaviour the album downloader relies on:
  `isspace`/`strip`, `startswith`, `split`, `replace` of one character,
  `int()` on a decimal literal and the `{n}` / `{n:02d}` formats.
 */
module Text {
  import opened Wrappers

  /** Python's `str.isspace` for one character; the same set `\s` matches in a `re` pattern over `str`. */
  predicate IsSpace(c: char) {
    var n := c as int;
    (9 <= n <= 13) || (28 <= n <= 32) || n == 0x85 || n == 0xA0 || n == 0x1680 ||
    (0x2000 <= n <= 0x200A) || n == 0x2028 || n == 0x2029 || n == 0x202F || n == 0x205F || n == 0x3000
  }

  predicate IsDigit(c: char) {
    '0' <= c <= '9'
  }

  predicate AllSpace(s: string) {
    forall k :: 0 <= k < |s| ==> IsSpace(s[k])
  }

  predicate IsDigits(s: string) {
    forall k :: 0 <= k < |s| ==> IsDigit(s[k])
  }

  predicate StartsWith(s: string, prefix: string) {
    |prefix| <= |s| && s[..|prefix|] == prefix
  }

  /** True when `s` neither starts nor ends with whitespace: what `strip` returns. */
  predicate IsStripped(s: string) {
    s == [] || (!IsSpace(s[0]) && !IsSpace(s[|s| - 1]))
  }

  /** `k` is where the whitespace run at the front of `s` ends. */
  predicate SpaceRunEnds(s: string, k: nat) {
    && k <= |s|
    && (forall j :: 0 <= j < k ==> IsSpace(s[j]))
    && (k < |s| ==> !IsSpace(s[k]))
  }

  lemma SpaceRunUnique(s: string, a: nat, b: nat)
    requires SpaceRunEnds(s, a) && SpaceRunEnds(s, b)
    ensures a == b
  {
  }

  /** Length of the run of whitespace at the front of `s`. */
  function LeadingSpaces(s: string): (k: nat)
    ensures SpaceRunEnds(s, k)
  {
    if s != [] && IsSpace(s[0]) then 1 + LeadingSpaces(s[1..]) else 0
  }

  /** Length of the run of whitespace at the end of `s`. */
  function TrailingSpaces(s: string): (k: nat)
    ensures k <= |s| && forall j :: |s| - k <= j < |s| ==> IsSpace(s[j])
    ensures k < |s| ==> !IsSpace(s[|s| - k - 1])
  {
    if s != [] && IsSpace(s[|s| - 1]) then 1 + TrailingSpaces(s[..|s| - 1]) else 0
  }

  /** `s.lstrip()`: `s` without its leading whitespace. */
  function TrimStart(s: string): (r: string)
    ensures |r| <= |s| && r == s[|s| - |r|..]
    ensures forall j :: 0 <= j < |s| - |r| ==> IsSpace(s[j])
    ensures r == [] || !IsSpace(r[0])
  {
    s[LeadingSpaces(s)..]
  }

  /** Leading whitespace is all `lstrip` looks at: a whitespace prefix makes no difference. */
  lemma TrimStartSpaces(gap: string, s: string)
    requires AllSpace(gap)
    ensures TrimStart(gap + s) == TrimStart(s)
  {
    var t := gap + s;
    var k := LeadingSpaces(s);
    assert SpaceRunEnds(t, |gap| + k) by {
      assert forall j :: 0 <= j < |gap| ==> t[j] == gap[j];
      assert forall j :: |gap| <= j < |t| ==> t[j] == s[j - |gap|];
    }
    SpaceRunUnique(t, LeadingSpaces(t), |gap| + k);
    assert t[|gap| + k..] == s[k..];
  }

  /** `lstrip` is idempotent. */
  lemma TrimStartIdempotent(s: string)
    ensures TrimStart(TrimStart(s)) == TrimStart(s)
  {
    var r := TrimStart(s);
    SpaceRunUnique(r, LeadingSpaces(r), 0);
  }

  /** `lstrip` of a string that ends in a non-space keeps that end, and adds no character. */
  lemma TrimStartKeeps(s: string, c: char)
    requires s != [] && !IsSpace(s[|s| - 1]) && c !in s
    ensures TrimStart(s) != [] && c !in TrimStart(s)
  {
    var t := TrimStart(s);
    assert forall j :: 0 <= j < |t| ==> t[j] == s[|s| - |t| + j];
  }

  /** `s.rstrip()`: `s` without its trailing whitespace. */
  function TrimEnd(s: string): (r: string)
    ensures |r| <= |s| && r == s[..|r|]
    ensures forall j :: |r| <= j < |s| ==> IsSpace(s[j])
    ensures r == [] || !IsSpace(r[|r| - 1])
  {
    s[..|s| - TrailingSpaces(s)]
  }

  /** `s.strip()`: `s` without whitespace at either end. */
  function Trim(s: string): (r: string)
    ensures IsStripped(r) && |r| <= |s|
  {
    TrimEnd(TrimStart(s))
  }

  /** `s.lstrip().strip()` is `s.strip()`. */
  lemma TrimAfterTrimStart(s: string)
    ensures Trim(TrimStart(s)) == Trim(s)
  {
    TrimStartIdempotent(s);
  }

  /** What `strip` removes is whitespace and what it keeps is one slice of `s`. */
  lemma TrimSlice(s: string) returns (i: nat)
    ensures i + |Trim(s)| <= |s| && Trim(s) == s[i..i + |Trim(s)|]
    ensures forall j :: 0 <= j < i ==> IsSpace(s[j])
    ensures forall j :: i + |Trim(s)| <= j < |s| ==> IsSpace(s[j])
  {
    var a := TrimStart(s);
    var r := TrimEnd(a);
    i := |s| - |a|;
    assert forall j :: 0 <= j < |a| ==> a[j] == s[i + j];
  }

  /** A stripped string is its own `strip`. */
  lemma TrimStripped(s: string)
    requires IsStripped(s)
    ensures Trim(s) == s
  {
    SpaceRunUnique(s, LeadingSpaces(s), 0);
    assert TrimStart(s) == s;
    if s != [] {
      assert TrailingSpaces(s) == 0;
    }
  }

  /** The part of `s` after the first `sep`: `s.split(sep, 1)[1]`, which exists only when `sep` occurs. */
  function AfterFirst(s: string, sep: char): (r: string)
    requires sep in s
    ensures |r| < |s| && s[|s| - |r| - 1] == sep && sep !in s[..|s| - |r| - 1] && r == s[|s| - |r|..]
  {
    if s[0] == sep then s[1..]
    else
      assert sep in s[1..] by { var k :| 0 <= k < |s| && s[k] == sep; assert s[1..][k - 1] == sep; }
      AfterFirst(s[1..], sep)
  }

  /** Number of occurrences of `c` in `s`. */
  function Count(s: string, c: char): nat {
    if s == [] then 0 else (if s[0] == c then 1 else 0) + Count(s[1..], c)
  }

  /** The inverse of `Split`: `sep.join(parts)`. */
  function Join(parts: seq<string>, sep: char): string
    requires |parts| >= 1
  {
    if |parts| == 1 then parts[0] else parts[0] + [sep] + Join(parts[1..], sep)
  }

  /** `s.split(sep)` for a one-character separator: every occurrence cuts, empty fields are kept. */
  function Split(s: string, sep: char): (parts: seq<string>)
    ensures |parts| >= 1
    ensures forall k :: 0 <= k < |parts| ==> sep !in parts[k]
    decreases |s|
  {
    if s == [] then [""]
    else if s[0] == sep then [""] + Split(s[1..], sep)
    else
      var rest := Split(s[1..], sep);
      [[s[0]] + rest[0]] + rest[1..]
  }

  /** Joining the fields of `Split` with the separator gives back the string; there is one more field than separators. */
  lemma {:induction false} JoinSplit(s: string, sep: char)
    ensures Join(Split(s, sep), sep) == s
    ensures |Split(s, sep)| == Count(s, sep) + 1
    decreases |s|
  {
    if s != [] {
      JoinSplit(s[1..], sep);
      var rest := Split(s[1..], sep);
      assert s == [s[0]] + s[1..];
      if s[0] != sep {
        var parts := [[s[0]] + rest[0]] + rest[1..];
        assert parts[1..] == rest[1..];
      }
    }
  }

  /** Cutting at the first separator of `a + [sep] + b` splits off exactly `a`. */
  lemma {:induction false} SplitAfterField(a: string, b: string, sep: char)
    requires sep !in a
    ensures Split(a + [sep] + b, sep) == [a] + Split(b, sep)
    decreases |a|
  {
    if a == [] {
      assert a + [sep] + b == [sep] + b;
      assert ([sep] + b)[1..] == b;
    } else {
      var s := a + [sep] + b;
      assert s[1..] == a[1..] + [sep] + b;
      SplitAfterField(a[1..], b, sep);
      assert [a[0]] + a[1..] == a;
    }
  }

  /** `Split` undoes `Join` when no field holds the separator. */
  lemma {:induction false} SplitJoin(parts: seq<string>, sep: char)
    requires |parts| >= 1
    requires forall k :: 0 <= k < |parts| ==> sep !in parts[k]
    ensures Split(Join(parts, sep), sep) == parts
  {
    if |parts| == 1 {
      SplitNoSeparator(parts[0], sep);
    } else {
      SplitJoin(parts[1..], sep);
      SplitAfterField(parts[0], Join(parts[1..], sep), sep);
      assert [parts[0]] + parts[1..] == parts;
    }
  }

  lemma {:induction false} SplitNoSeparator(s: string, sep: char)
    requires sep !in s
    ensures Split(s, sep) == [s]
    decreases |s|
  {
    if s != [] {
      assert sep !in s[1..];
      SplitNoSeparator(s[1..], sep);
      assert [s[0]] + s[1..] == s;
    }
  }

  /** `s.replace(from, to)` for single characters. */
  function ReplaceChar(s: string, from: char, to: char): (r: string)
    ensures |r| == |s|
    ensures forall k :: 0 <= k < |s| ==> r[k] == (if s[k] == from then to else s[k])
  {
    if s == [] then [] else [if s[0] == from then to else s[0]] + ReplaceChar(s[1..], from, to)
  }

  /** Value of a decimal literal; leading zeros are allowed, as `int()` allows them. */
  function DigitsValue(s: string): nat
    requires IsDigits(s)
  {
    if s == [] then 0 else 10 * DigitsValue(s[..|s| - 1]) + (s[|s| - 1] as int - '0' as int)
  }

  /** `int(s)` restricted to ASCII decimal literals: `None` is the `ValueError` case. */
  function ParseNat(s: string): (r: Option<nat>)
    ensures r.Some? <==> s != [] && IsDigits(s)
  {
    if s != [] && IsDigits(s) then Some(DigitsValue(s)) else None
  }

  function DigitChar(d: nat): char
    requires d < 10
  {
    ('0' as int + d) as char
  }

  /** `str(n)` / `f"{n}"` for a non-negative integer. */
  function NatToString(n: nat): (r: string)
    ensures r != [] && IsDigits(r)
    ensures |r| == 1 <==> n < 10
    ensures n > 0 ==> r[0] != '0'
  {
    if n < 10 then [DigitChar(n)] else NatToString(n / 10) + [DigitChar(n % 10)]
  }

  /** Decimal formatting and `int()` are inverse. */
  lemma {:induction false} NatToStringRoundTrip(n: nat)
    ensures DigitsValue(NatToString(n)) == n
    ensures ParseNat(NatToString(n)) == Some(n)
  {
    if n >= 10 {
      NatToStringRoundTrip(n / 10);
      var s := NatToString(n);
      assert s[..|s| - 1] == NatToString(n / 10);
    }
  }

  /** Decimal formatting is injective. */
  lemma NatToStringInjective(m: nat, n: nat)
    requires NatToString(m) == NatToString(n)
    ensures m == n
  {
    NatToStringRoundTrip(m);
    NatToStringRoundTrip(n);
  }

  /** `f"{n:02d}"`: decimal, left-padded with zeros to at least two digits. */
  function Pad2(n: nat): (r: string)
    ensures IsDigits(r) && |r| >= 2
  {
    if n < 10 then "0" + NatToString(n) else NatToString(n)
  }

  /** The padded form is exactly two digits below ten and the plain decimal form above, and `int()` reads it back. */
  lemma Pad2RoundTrip(n: nat)
    ensures |Pad2(n)| == if n < 10 then 2 else |NatToString(n)|
    ensures ParseNat(Pad2(n)) == Some(n)
  {
    NatToStringRoundTrip(n);
    if n < 10 {
      var r := Pad2(n);
      assert r[..|r| - 1] == "0";
      assert DigitsValue("0") == 0;
    }
  }

  /** Length of the run of ASCII digits at the start of `s`. */
  function LeadingDigits(s: string): (k: nat)
    ensures k <= |s| && IsDigits(s[..k]) && (k < |s| ==> !IsDigit(s[k]))
  {
    if s != [] && IsDigit(s[0]) then
      var k := 1 + LeadingDigits(s[1..]);
      assert s[..k] == [s[0]] + s[1..][..k - 1];
      k
    else 0
  }

  lemma {:induction false} LeadingDigitsOf(d: string, s: string)
    requires IsDigits(d)
    requires s == [] || !IsDigit(s[0])
    ensures LeadingDigits(d + s) == |d|
    decreases |d|
  {
    if d != [] {
      assert (d + s)[1..] == d[1..] + s;
      LeadingDigitsOf(d[1..], s);
    }
  }
}
