/** Character and string helpers with the semantics of the library calls the
    source relies on: JavaScript's `toLowerCase`, `includes`, `padStart` and
    `String(n)`, and Go's `strings.ToLower`, `strings.SplitN(s, sep, 2)` and
    `strconv.ParseUint(s, 10, 32)`. Case mapping covers ASCII letters only. */
module Strings {
  import opened Wrappers
  import Seqs

  predicate IsDigit(c: char) { '0' <= c <= '9' }

  function DigitValue(c: char): (d: nat)
    requires IsDigit(c)
    ensures d < 10
  {
    c as int - '0' as int
  }

  function DigitChar(d: nat): (c: char)
    requires d < 10
    ensures IsDigit(c) && DigitValue(c) == d
  {
    ('0' as int + d) as char
  }

  /** ASCII lower-casing of one character. */
  function LowerChar(c: char): (l: char)
    ensures 'A' <= c <= 'Z' ==> l as int == c as int + 32
    ensures !('A' <= c <= 'Z') ==> l == c
  {
    if 'A' <= c <= 'Z' then (c as int + 32) as char else c
  }

  function Lower(s: string): (r: string)
    ensures |r| == |s|
    ensures forall i :: 0 <= i < |s| ==> r[i] == LowerChar(s[i])
  {
    seq(|s|, i requires 0 <= i < |s| => LowerChar(s[i]))
  }

  /** Lower-casing twice is lower-casing once. */
  lemma LowerIdempotent(s: string)
    ensures Lower(Lower(s)) == Lower(s)
  {
    var once := Lower(s);
    var twice := Lower(once);
    forall i | 0 <= i < |s| ensures twice[i] == once[i] {
      assert once[i] == LowerChar(s[i]);
    }
  }

  /** `needle` occurs in `hay` starting at index `i`. */
  ghost predicate OccursAt(hay: string, needle: string, i: int)
  {
    0 <= i && i + |needle| <= |hay| && hay[i..i + |needle|] == needle
  }

  /** JavaScript's `hay.includes(needle)`. */
  predicate Includes(hay: string, needle: string)
    decreases |hay|
  {
    needle <= hay || (hay != [] && Includes(hay[1..], needle))
  }

  /** `Includes` holds exactly when the needle occurs at some index. */
  lemma {:induction false} IncludesIffOccurs(hay: string, needle: string)
    ensures Includes(hay, needle) <==> exists i :: OccursAt(hay, needle, i)
    decreases |hay|
  {
    if needle <= hay {
      assert OccursAt(hay, needle, 0);
    } else if hay != [] {
      IncludesIffOccurs(hay[1..], needle);
      if Includes(hay[1..], needle) {
        var i :| OccursAt(hay[1..], needle, i);
        assert hay[1..][i..i + |needle|] == hay[i + 1..i + 1 + |needle|];
        assert OccursAt(hay, needle, i + 1);
      }
      if exists i :: OccursAt(hay, needle, i) {
        var i :| OccursAt(hay, needle, i);
        assert i != 0;
        assert hay[1..][i - 1..i - 1 + |needle|] == hay[i..i + |needle|];
        assert OccursAt(hay[1..], needle, i - 1);
      }
    }
  }

  /** Every string includes the empty string. */
  lemma IncludesEmpty(hay: string)
    ensures Includes(hay, "")
  {
  }

  /** Go's `strings.SplitN(s, string(sep), 2)`: split at the first `sep`. */
  function SplitFirst(s: string, sep: char): (parts: seq<string>)
    ensures 1 <= |parts| <= 2
    ensures |parts| == 1 <==> sep !in s
    ensures |parts| == 1 ==> parts[0] == s
    ensures |parts| == 2 ==> parts[0] + [sep] + parts[1] == s && sep !in parts[0]
  {
    match Seqs.FindFirst(s, c => c == sep)
    case None => [s]
    case Some(i) =>
      assert s == s[..i] + [sep] + s[i + 1..];
      assert forall j :: 0 <= j < i ==> s[..i][j] != sep;
      [s[..i], s[i + 1..]]
  }

  /** Splitting at the first separator recovers the part before it and
      everything after it. */
  lemma SplitFirstOf(a: string, sep: char, b: string)
    requires sep !in a
    ensures SplitFirst(a + [sep] + b, sep) == [a, b]
  {
    var s := a + [sep] + b;
    assert s[|a|] == sep;
    var parts := SplitFirst(s, sep);
    var n := |parts[0]|;
    assert s[..n] == parts[0] && s[n] == sep;
    assert n == |a| by {
      assert forall i :: 0 <= i < |a| ==> s[i] == a[i];
      assert forall i :: 0 <= i < n ==> s[i] == parts[0][i];
    }
    assert parts[0] == a;
    assert s[n + 1..] == b == parts[1];
  }

  /** JavaScript's `s.padStart(n, c)`. */
  function PadStart(s: string, n: nat, c: char): (r: string)
    ensures |r| == if |s| < n then n else |s|
    ensures exists k :: 0 <= k <= |r| && r[k..] == s && forall j :: 0 <= j < k ==> r[j] == c
  {
    if |s| < n then
      var pad := seq(n - |s|, _ => c);
      assert (pad + s)[n - |s|..] == s;
      pad + s
    else
      assert s[0..] == s;
      s
  }

  /** Decimal digits of `n`, most significant first, no leading zeros
      (JavaScript's `String(n)` and Go's `strconv.Itoa` for naturals). */
  function NatToString(n: nat): (r: string)
    ensures |r| >= 1
    ensures forall i :: 0 <= i < |r| ==> IsDigit(r[i])
    ensures n >= 10 ==> r[0] != '0'
  {
    if n < 10 then [DigitChar(n)] else NatToString(n / 10) + [DigitChar(n % 10)]
  }

  /** JavaScript's `String(x)` for integers. */
  function IntToString(x: int): (r: string)
    ensures |r| >= 1
  {
    if x < 0 then "-" + NatToString(-x) else NatToString(x)
  }

  predicate AllDigits(s: string) { forall i :: 0 <= i < |s| ==> IsDigit(s[i]) }

  /** The number a string of decimal digits denotes, read left to right. */
  function DecimalValue(s: string): nat
    requires AllDigits(s)
  {
    if s == [] then 0 else DecimalValue(s[..|s| - 1]) * 10 + DigitValue(s[|s| - 1])
  }

  /** Printing then reading a natural gives it back. */
  lemma {:induction false} DecimalRoundTrip(n: nat)
    ensures AllDigits(NatToString(n)) && DecimalValue(NatToString(n)) == n
  {
    var s := NatToString(n);
    if n >= 10 {
      DecimalRoundTrip(n / 10);
      assert s[..|s| - 1] == NatToString(n / 10);
    }
  }

  /** The largest value `strconv.ParseUint(s, 10, 32)` returns. */
  const MaxUint32: nat := 0xFFFF_FFFF

  /** `strconv.ParseUint(s, 10, 32)` with its error discarded, as the handlers
      call it: scanning left to right, a non-digit before any overflow gives 0
      (a syntax error), exceeding 32 bits gives the maximum (a range error). */
  function ParseUint32OrDefault(s: string): (r: nat)
    ensures r <= MaxUint32
  {
    if s == [] then 0 else ScanDecimal(s, 0)
  }

  function ScanDecimal(s: string, acc: nat): (r: nat)
    requires acc <= MaxUint32
    ensures r <= MaxUint32
  {
    if s == [] then acc
    else if !IsDigit(s[0]) then 0
    else
      var next := acc * 10 + DigitValue(s[0]);
      if next > MaxUint32 then MaxUint32 else ScanDecimal(s[1..], next)
  }

  lemma {:induction false} DecimalValuePrefixGrows(s: string, k: nat)
    requires AllDigits(s) && k <= |s|
    ensures DecimalValue(s[..k]) <= DecimalValue(s)
    decreases |s|
  {
    if k < |s| {
      assert s[..|s| - 1][..k] == s[..k];
      DecimalValuePrefixGrows(s[..|s| - 1], k);
    } else {
      assert s[..k] == s;
    }
  }

  lemma {:induction false} ScanFromPrefix(s: string, k: nat)
    requires AllDigits(s) && k <= |s| && DecimalValue(s) <= MaxUint32
    ensures DecimalValue(s[..k]) <= MaxUint32
    ensures ScanDecimal(s[k..], DecimalValue(s[..k])) == DecimalValue(s)
    decreases |s| - k
  {
    DecimalValuePrefixGrows(s, k);
    if k == |s| {
      assert s[..k] == s;
    } else {
      assert s[..k + 1][..k] == s[..k];
      DecimalValuePrefixGrows(s, k + 1);
      ScanFromPrefix(s, k + 1);
      assert s[k..][1..] == s[k + 1..];
    }
  }

  /** An identifier printed in decimal is read back exactly. */
  lemma ParseIdRoundTrip(n: nat)
    requires n <= MaxUint32
    ensures ParseUint32OrDefault(NatToString(n)) == n
  {
    var s := NatToString(n);
    DecimalRoundTrip(n);
    ScanFromPrefix(s, 0);
    assert s[..0] == [] && s[0..] == s;
  }

  /** A path segment that starts with a non-digit reads as 0. */
  lemma ParseNonNumericIsZero(s: string)
    requires s != [] && !IsDigit(s[0])
    ensures ParseUint32OrDefault(s) == 0
  {
  }

  /** Leading zeros do not change a decimal's value. */
  lemma {:induction false} LeadingZeros(z: string, s: string)
    requires forall i :: 0 <= i < |z| ==> z[i] == '0'
    requires AllDigits(s)
    ensures AllDigits(z + s) && DecimalValue(z + s) == DecimalValue(s)
    decreases |s|
  {
    var t := z + s;
    if s == [] {
      assert t == z;
      Zeros(z);
    } else {
      assert t[..|t| - 1] == z + s[..|s| - 1];
      LeadingZeros(z, s[..|s| - 1]);
    }
  }

  /** Zero padding on the left does not change the number a digit string denotes. */
  lemma PadZerosReadsBack(s: string, n: nat)
    requires AllDigits(s)
    ensures AllDigits(PadStart(s, n, '0')) && DecimalValue(PadStart(s, n, '0')) == DecimalValue(s)
  {
    var r := PadStart(s, n, '0');
    var k :| 0 <= k <= |r| && r[k..] == s && forall j :: 0 <= j < k ==> r[j] == '0';
    assert r == r[..k] + r[k..];
    LeadingZeros(r[..k], s);
  }

  lemma {:induction false} Zeros(z: string)
    requires forall i :: 0 <= i < |z| ==> z[i] == '0'
    ensures AllDigits(z) && DecimalValue(z) == 0
    decreases |z|
  {
    if z != [] {
      Zeros(z[..|z| - 1]);
    }
  }
}
