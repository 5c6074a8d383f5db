/**
 * Strings as the source builds and reads them: decimal rendering of
 * integers (template-string interpolation), `split` on one separator
 * character, `padStart`, and the digit grammar `parseFloat` accepts for
 * lap times.
 */
module Text {
  import opened Wrappers

  predicate IsDigit(c: char) { '0' <= c <= '9' }

  predicate AllDigits(s: string) { forall i :: 0 <= i < |s| ==> IsDigit(s[i]) }

  function DigitChar(d: nat): (c: char)
    requires d < 10
    ensures IsDigit(c)
  {
    ['0', '1', '2', '3', '4', '5', '6', '7', '8', '9'][d]
  }

  /** The value of a decimal digit character; any other character counts as 0. */
  function DigitValue(c: char): (d: nat)
    ensures d < 10
    ensures IsDigit(c) ==> d as int == c as int - '0' as int
  {
    if IsDigit(c) then (c as int - '0' as int) as nat else 0
  }

  lemma DigitRoundTrip(d: nat)
    requires d < 10
    ensures DigitValue(DigitChar(d)) == d
  {}

  function Pow10(n: nat): (p: nat)
    ensures p >= 1
  {
    if n == 0 then 1 else 10 * Pow10(n - 1)
  }

  /** Decimal rendering of a natural number, as `${n}` prints it. */
  function NatToString(n: nat): (s: string)
    ensures |s| >= 1 && AllDigits(s)
  {
    if n < 10 then [DigitChar(n)] else NatToString(n / 10) + [DigitChar(n % 10)]
  }

  /** Decimal rendering of an integer, with a leading '-' when negative. */
  function IntToString(i: int): (s: string)
    ensures |s| >= 1
  {
    if i < 0 then "-" + NatToString(-i) else NatToString(i)
  }

  /** The value of a string of decimal digits (the empty string is 0). */
  function DigitsValue(s: string): nat
  {
    if s == [] then 0 else 10 * DigitsValue(s[..|s| - 1]) + DigitValue(s[|s| - 1])
  }

  lemma {:induction false} NatToStringRoundTrip(n: nat)
    ensures DigitsValue(NatToString(n)) == n
  {
    var s := NatToString(n);
    if n < 10 {
      DigitRoundTrip(n);
    } else {
      NatToStringRoundTrip(n / 10);
      assert s[..|s| - 1] == NatToString(n / 10);
      DigitRoundTrip(n % 10);
    }
  }

  /** Numbers render with no leading zero, so distinct numbers render differently. */
  lemma NatToStringInjective(m: nat, n: nat)
    requires NatToString(m) == NatToString(n)
    ensures m == n
  {
    NatToStringRoundTrip(m);
    NatToStringRoundTrip(n);
  }

  lemma ShiftDigit(va: int, vb: int, p: int, d: int)
    ensures 10 * (va * p + vb) + d == va * (10 * p) + (10 * vb + d)
  {
  }

  lemma {:induction false} DigitsValueAppend(a: string, b: string)
    requires AllDigits(a) && AllDigits(b)
    ensures AllDigits(a + b)
    ensures DigitsValue(a + b) == DigitsValue(a) * Pow10(|b|) + DigitsValue(b)
  {
    if b != [] {
      var ab, b' := a + b, b[..|b| - 1];
      assert ab[..|ab| - 1] == a + b';
      DigitsValueAppend(a, b');
      assert ab[|ab| - 1] == b[|b| - 1];
      ShiftDigit(DigitsValue(a), DigitsValue(b'), Pow10(|b'|), DigitValue(b[|b| - 1]));
    } else {
      assert a + b == a;
    }
  }

  function Repeat(c: char, n: nat): (s: string)
    ensures |s| == n && forall i :: 0 <= i < n ==> s[i] == c
  {
    if n == 0 then [] else Repeat(c, n - 1) + [c]
  }

  lemma {:induction false} ZerosValue(n: nat)
    ensures AllDigits(Repeat('0', n)) && DigitsValue(Repeat('0', n)) == 0
  {
    var z := Repeat('0', n);
    assert AllDigits(z) by {
      forall i | 0 <= i < n
        ensures IsDigit(z[i])
      {
        assert z[i] == '0';
      }
    }
    if n > 0 {
      ZerosValue(n - 1);
      assert z[..n - 1] == Repeat('0', n - 1);
      assert DigitValue(z[n - 1]) == 0;
    }
  }

  /** `s.padStart(width, c)`: prefix copies of `c` up to the given width. */
  function PadStart(s: string, width: nat, c: char): (r: string)
    ensures |r| == if |s| >= width then |s| else width
    ensures r[|r| - |s|..] == s
    ensures forall i :: 0 <= i < |r| - |s| ==> r[i] == c
  {
    if |s| >= width then s else Repeat(c, width - |s|) + s
  }

  /** Zero padding never changes the value of a digit string. */
  lemma ZeroPadValue(s: string, width: nat)
    requires AllDigits(s)
    ensures AllDigits(PadStart(s, width, '0'))
    ensures DigitsValue(PadStart(s, width, '0')) == DigitsValue(s)
  {
    if |s| < width {
      ZerosValue(width - |s|);
      DigitsValueAppend(Repeat('0', width - |s|), s);
    }
  }

  // ---------------------------------------------------------------------
  // String.prototype.split with a one-character separator, and its inverse

  function IndexOf(s: string, c: char): (i: nat)
    requires c in s
    ensures i < |s| && s[i] == c && c !in s[..i]
  {
    if s[0] == c then 0 else 1 + IndexOf(s[1..], c)
  }

  /** `s.split(c)`: the pieces between separators; never empty. */
  function Split(s: string, c: char): (parts: seq<string>)
    ensures |parts| >= 1
    decreases |s|
  {
    if c !in s then [s] else
      var i := IndexOf(s, c);
      [s[..i]] + Split(s[i + 1..], c)
  }

  /** `parts.join(c)` */
  function Join(parts: seq<string>, c: char): string
    requires |parts| >= 1
  {
    if |parts| == 1 then parts[0] else parts[0] + [c] + Join(parts[1..], c)
  }

  predicate NoneContains(parts: seq<string>, c: char) {
    forall i :: 0 <= i < |parts| ==> c !in parts[i]
  }

  lemma IndexOfPrefix(p: string, c: char, rest: string)
    requires c !in p
    ensures c in p + [c] + rest && IndexOf(p + [c] + rest, c) == |p|
  {
    var s := p + [c] + rest;
    assert s[|p|] == c;
    assert s[..|p|] == p;
  }

  lemma Join2(a: string, b: string, c: char)
    ensures Join([a, b], c) == a + [c] + b
  {
    assert [a, b][1..] == [b];
  }

  lemma Join3(a: string, b: string, d: string, c: char)
    ensures Join([a, b, d], c) == a + [c] + b + [c] + d
  {
    assert [a, b, d][1..] == [b, d];
    Join2(b, d, c);
  }

  lemma Join4(a: string, b: string, d: string, e: string, c: char)
    ensures Join([a, b, d, e], c) == a + [c] + b + [c] + d + [c] + e
  {
    assert [a, b, d, e][1..] == [b, d, e];
    Join3(b, d, e, c);
  }

  /** Splitting a join of separator-free pieces gives the pieces back. */
  lemma {:induction false} SplitJoin(parts: seq<string>, c: char)
    requires |parts| >= 1 && NoneContains(parts, c)
    ensures Split(Join(parts, c), c) == parts
  {
    if |parts| > 1 {
      var rest := Join(parts[1..], c);
      IndexOfPrefix(parts[0], c, rest);
      var s := parts[0] + [c] + rest;
      assert s[..|parts[0]|] == parts[0];
      assert s[|parts[0]| + 1..] == rest;
      SplitJoin(parts[1..], c);
    }
  }

  lemma SplitTwo(a: string, b: string, c: char)
    requires c !in a && c !in b
    ensures Split(a + [c] + b, c) == [a, b]
  {
    Join2(a, b, c);
    SplitJoin([a, b], c);
  }

  lemma SplitThree(a: string, b: string, d: string, c: char)
    requires c !in a && c !in b && c !in d
    ensures Split(a + [c] + b + [c] + d, c) == [a, b, d]
  {
    Join3(a, b, d, c);
    SplitJoin([a, b, d], c);
  }

  /** Joining the pieces of a split gives the string back, and no piece holds the separator. */
  lemma {:induction false} JoinSplit(s: string, c: char)
    ensures NoneContains(Split(s, c), c)
    ensures Join(Split(s, c), c) == s
    decreases |s|
  {
    if c in s {
      var i := IndexOf(s, c);
      var rest := s[i + 1..];
      var pieces := Split(rest, c);
      JoinSplit(rest, c);
      var all := [s[..i]] + pieces;
      assert Split(s, c) == all;
      assert all[0] == s[..i] && all[1..] == pieces;
      assert Join(all, c) == s[..i] + [c] + Join(pieces, c);
      assert NoneContains(all, c) by {
        forall j | 0 <= j < |all|
          ensures c !in all[j]
        {
          if j > 0 {
            assert all[j] == pieces[j - 1];
          }
        }
      }
      assert s == s[..i] + [c] + rest;
    }
  }

  // ---------------------------------------------------------------------
  // parseFloat on the unsigned decimal grammar  digits [ '.' digits ]

  /** The number of leading decimal digits of `s`. */
  function LeadingDigits(s: string): (k: nat)
    ensures k <= |s|
  {
    if s == [] || !IsDigit(s[0]) then 0 else 1 + LeadingDigits(s[1..])
  }

  /** The leading digits are digits, and the character after them is not. */
  lemma {:induction false} LeadingDigitsSpec(s: string)
    ensures var k := LeadingDigits(s);
      AllDigits(s[..k]) && (k < |s| ==> !IsDigit(s[k]))
  {
    if s != [] && IsDigit(s[0]) {
      LeadingDigitsSpec(s[1..]);
      var k := LeadingDigits(s);
      assert s[..k] == [s[0]] + s[1..][..k - 1];
    }
  }

  /** The number written `whole` '.' `frac`, where `frac` has `digits` digits. */
  function Decimal(whole: nat, frac: nat, digits: nat): (r: real)
    ensures r >= whole as real
  {
    whole as real + frac as real / Pow10(digits) as real
  }

  /**
   * `parseFloat(s)` for strings of the form digits, optionally followed by a
   * '.' and more digits, reading the longest such prefix; `None` is NaN
   * (no digit at all before the first other character).
   */
  function ParseFloat(s: string): (r: Option<real>)
    ensures r.Some? ==> r.value >= 0.0
  {
    var k := LeadingDigits(s);
    var whole := DigitsValue(s[..k]);
    if k < |s| && s[k] == '.' then
      var tail := s[k + 1..];
      var f := LeadingDigits(tail);
      if k == 0 && f == 0 then None
      else Some(Decimal(whole, DigitsValue(tail[..f]), f))
    else if k == 0 then None
    else Some(whole as real)
  }

  lemma LeadingDigitsAll(s: string)
    requires AllDigits(s)
    ensures LeadingDigits(s) == |s|
  {
  }

  lemma {:induction false} LeadingDigitsStop(a: string, b: string)
    requires AllDigits(a) && b != [] && !IsDigit(b[0])
    ensures LeadingDigits(a + b) == |a|
  {
    if a != [] {
      assert (a + b)[1..] == a[1..] + b;
      LeadingDigitsStop(a[1..], b);
    }
  }

  /** A string of digits parses to its value. */
  lemma ParseFloatDigits(s: string)
    requires AllDigits(s) && s != []
    ensures ParseFloat(s) == Some(DigitsValue(s) as real)
  {
    LeadingDigitsAll(s);
    assert s[..|s|] == s;
  }

  /** Digits followed by anything other than a digit or '.' parse to the digits alone. */
  lemma ParseFloatStops(a: string, rest: string)
    requires AllDigits(a) && a != [] && rest != [] && !IsDigit(rest[0]) && rest[0] != '.'
    ensures ParseFloat(a + rest) == Some(DigitsValue(a) as real)
  {
    var s := a + rest;
    LeadingDigitsStop(a, rest);
    assert s[|a|] == rest[0];
    assert s[..|a|] == a;
  }

  /** `whole "." frac` parses to whole + frac / 10^|frac|. */
  lemma ParseFloatFixed(w: string, f: string)
    requires AllDigits(w) && w != [] && AllDigits(f)
    ensures ParseFloat(w + "." + f) == Some(Decimal(DigitsValue(w), DigitsValue(f), |f|))
  {
    var s := w + "." + f;
    FixedParts(w, f, s);
    assert s[..|w|] == w;
    ParseFloatShape(s, |w|);
  }

  lemma FixedParts(w: string, f: string, s: string)
    requires AllDigits(w) && AllDigits(f) && s == w + "." + f
    ensures LeadingDigits(s) == |w| && |w| < |s| && s[|w|] == '.'
    ensures s[..|w|] == w && s[|w| + 1..] == f
  {
    var b := "." + f;
    assert s == w + b;
    LeadingDigitsStop(w, b);
    assert s[..|w|] == w;
    assert s[|w| + 1..] == f;
  }

  lemma ParseFloatShape(s: string, k: nat)
    requires k == LeadingDigits(s) && 0 < k < |s| && s[k] == '.'
    requires AllDigits(s[..k]) && AllDigits(s[k + 1..])
    ensures ParseFloat(s) == Some(Decimal(DigitsValue(s[..k]), DigitsValue(s[k + 1..]), |s| - k - 1))
  {
    var tail := s[k + 1..];
    LeadingDigitsAll(tail);
    var f := LeadingDigits(tail);
    assert f == |tail| == |s| - k - 1;
    assert tail[..f] == tail;

  }
}
