/**
 * The lap-time text of the lap-times page: `parseTimeToMs` reads
 * "m:ss.sss" (or a bare number of seconds) as milliseconds, and
 * `formatTime` writes a number of seconds back as "m:ss.sss".
 */
module LapTimeFormat {
  import opened Wrappers
  import opened Text

  const MsPerMinute: real := 60000.0
  const MsPerSecond: real := 1000.0

  /**
   * `parseTimeToMs`: split on ':'; exactly two parts are minutes and
   * seconds, anything else is read whole as seconds. `None` is NaN, which
   * `parseFloat` gives for text that does not start with a number and
   * which then survives the arithmetic.
   */
  function ParseTimeToMs(timeStr: string): Option<real>
  {
    var parts := Split(timeStr, ':');
    if |parts| == 2 then
      match (ParseFloat(parts[0]), ParseFloat(parts[1]))
      case (Some(minutes), Some(seconds)) => Some(minutes * MsPerMinute + seconds * MsPerSecond)
      case _ => None
    else
      match ParseFloat(timeStr)
      case Some(seconds) => Some(seconds * MsPerSecond)
      case None => None
  }

  /** "m:s" with no other ':' is minutes and seconds. */
  lemma MinutesSecondsRule(m: string, s: string)
    requires ':' !in m && ':' !in s
    ensures ParseFloat(m).Some? && ParseFloat(s).Some? ==>
      ParseTimeToMs(m + ":" + s) == Some(ParseFloat(m).value * 60000.0 + ParseFloat(s).value * 1000.0)
    ensures ParseFloat(m).None? || ParseFloat(s).None? ==> ParseTimeToMs(m + ":" + s) == None
  {
    assert m + ":" + s == m + [':'] + s;
    SplitTwo(m, s, ':');
  }

  /** Any other number of ':'-separated parts: the whole string is a number of seconds. */
  lemma WholeSecondsRule(t: string)
    requires |Split(t, ':')| != 2
    ensures ParseTimeToMs(t) == if ParseFloat(t).Some? then Some(ParseFloat(t).value * 1000.0) else None
  {
  }

  /**
   * A time with three ':'-separated parts, such as "h:mm:ss.sss", is read
   * whole as seconds, and `parseFloat` stops at the first ':': the hours
   * are taken for seconds.
   */
  lemma HoursReadAsSeconds(t: string, h: string, m: string, sec: string)
    requires Split(t, ':') == [h, m, sec] && AllDigits(h) && h != []
    ensures ParseTimeToMs(t) == Some(DigitsValue(h) as real * 1000.0)
  {
    HoursPrefix(t, h, m, sec);
    WholeSecondsRule(t);
  }

  lemma HoursPrefix(t: string, h: string, m: string, sec: string)
    requires Split(t, ':') == [h, m, sec] && AllDigits(h) && h != []
    ensures ParseFloat(t) == Some(DigitsValue(h) as real)
  {
    assert ':' in t;
    var i := IndexOf(t, ':');
    assert Split(t, ':') == [t[..i]] + Split(t[i + 1..], ':');
    assert Split(t, ':')[0] == h;
    assert Split(t, ':')[0] == t[..i];
    assert t[..i] == h;
    assert t == t[..i] + t[i..];
    ParseFloatStops(t[..i], t[i..]);
  }

  lemma DigitsHaveNoColon(s: string)
    requires AllDigits(s)
    ensures ':' !in s
  {
    assert forall i :: 0 <= i < |s| ==> IsDigit(s[i]);
  }

  // ---------------------------------------------------------------------
  // formatTime

  /**
   * `formatTime(ms / 1000)` for a whole number of milliseconds: the whole
   * minutes, ':', then the seconds field.
   */
  function FormatTime(ms: nat): string
  {
    NatToString(ms / 60000) + ":" + SecondsField(ms % 60000)
  }

  /** `(seconds % 60).toFixed(3)` left-padded with '0' to six characters. */
  function SecondsField(rem: nat): string
  {
    PadStart(NatToString(rem / 1000) + "." + PadStart(NatToString(rem % 1000), 3, '0'), 6, '0')
  }

  lemma NatToStringTwoDigits(n: nat)
    requires n < 100
    ensures |NatToString(n)| <= 2
  {
    if n >= 10 {
      assert NatToString(n) == NatToString(n / 10) + [DigitChar(n % 10)];
    }
  }

  lemma NatToStringThreeDigits(n: nat)
    requires n < 1000
    ensures |NatToString(n)| <= 3
  {
    if n >= 10 {
      NatToStringTwoDigits(n / 10);
    }
  }

  lemma PadStartIsZeros(s: string, width: nat)
    ensures PadStart(s, width, '0') == Repeat('0', |PadStart(s, width, '0')| - |s|) + s
  {
  }

  /** Padding "w.fff" to six is padding the whole seconds to two. */
  lemma PadSecondsField(w: string, f: string)
    requires 1 <= |w| <= 2 && |f| == 3
    ensures PadStart(w + "." + f, 6, '0') == PadStart(w, 2, '0') + "." + f
  {
    var s := w + "." + f;
    PadStartIsZeros(s, 6);
    PadStartIsZeros(w, 2);
    assert |PadStart(s, 6, '0')| - |s| == 2 - |w|;
  }

  lemma DecimalMillis(rem: nat)
    ensures Decimal(rem / 1000, rem % 1000, 3) == rem as real / 1000.0
  {
    assert Pow10(3) == 1000;
    var a, b := rem / 1000, rem % 1000;
    assert rem == a * 1000 + b;
    assert rem as real == a as real * 1000.0 + b as real;
  }

  /** The whole seconds padded to two digits and the milliseconds padded to three. */
  lemma SecondsFieldShape(rem: nat)
    requires rem < 60000
    ensures var w2 := PadStart(NatToString(rem / 1000), 2, '0');
      var frac := PadStart(NatToString(rem % 1000), 3, '0');
      && PadStart(NatToString(rem / 1000) + "." + frac, 6, '0') == w2 + "." + frac
      && AllDigits(w2) && w2 != [] && DigitsValue(w2) == rem / 1000
      && AllDigits(frac) && |frac| == 3 && DigitsValue(frac) == rem % 1000
  {
    NatToStringTwoDigits(rem / 1000);
    NatToStringThreeDigits(rem % 1000);
    PadSecondsField(NatToString(rem / 1000), PadStart(NatToString(rem % 1000), 3, '0'));
    ZeroPadValue(NatToString(rem / 1000), 2);
    ZeroPadValue(NatToString(rem % 1000), 3);
    NatToStringRoundTrip(rem / 1000);
    NatToStringRoundTrip(rem % 1000);
  }

  lemma FixedFieldValue(f: string, w2: string, frac: string, rem: nat)
    requires f == w2 + "." + frac
    requires AllDigits(w2) && w2 != [] && DigitsValue(w2) == rem / 1000
    requires AllDigits(frac) && |frac| == 3 && DigitsValue(frac) == rem % 1000
    ensures ':' !in f && ParseFloat(f) == Some(rem as real / 1000.0)
  {
    ParseFloatFixed(w2, frac);
    DecimalMillis(rem);
    assert ParseFloat(f) == Some(Decimal(rem / 1000, rem % 1000, 3));
    DigitsHaveNoColon(w2);
    DigitsHaveNoColon(frac);
  }

  /** The text of the seconds field reads back as the seconds it shows. */
  lemma SecondsFieldValue(rem: nat)
    requires rem < 60000
    ensures ':' !in SecondsField(rem) && ParseFloat(SecondsField(rem)) == Some(rem as real / 1000.0)
  {
    SecondsFieldShape(rem);
    var w2 := PadStart(NatToString(rem / 1000), 2, '0');
    var frac := PadStart(NatToString(rem % 1000), 3, '0');
    FixedFieldValue(SecondsField(rem), w2, frac, rem);
  }

  /** Two ':'-separated parts that both parse: minutes and seconds. */
  lemma TwoPartRule(t: string, m: string, f: string, a: real, b: real)
    requires Split(t, ':') == [m, f] && ParseFloat(m) == Some(a) && ParseFloat(f) == Some(b)
    ensures ParseTimeToMs(t) == Some(a * 60000.0 + b * 1000.0)
  {
  }

  /** The minutes field is free of ':' and reads back as the minutes. */
  lemma MinutesFieldValue(n: nat)
    ensures ':' !in NatToString(n) && ParseFloat(NatToString(n)) == Some(n as real)
  {
    DigitsHaveNoColon(NatToString(n));
    NatToStringRoundTrip(n);
    ParseFloatDigits(NatToString(n));
  }

  /** The two fields of a formatted time and what each reads back as. */
  lemma FieldsReadBack(q: nat, r: nat) returns (m: string, f: string)
    requires r < 60000
    ensures Split(NatToString(q) + ":" + SecondsField(r), ':') == [m, f]
    ensures ParseFloat(m) == Some(q as real)
    ensures ParseFloat(f) == Some(r as real / 1000.0)
  {
    m, f := NatToString(q), SecondsField(r);
    MinutesFieldValue(q);
    SecondsFieldValue(r);
    assert m + ":" + f == m + [':'] + f;
    SplitTwo(m, f, ':');
  }

  /** Two fields that read back as the minutes and the seconds give the milliseconds. */
  lemma RoundTripFromFields(t: string, ms: nat, q: nat, r: nat, m: string, f: string)
    requires Split(t, ':') == [m, f] && ms == q * 60000 + r
    requires ParseFloat(m) == Some(q as real)
    requires ParseFloat(f) == Some(r as real / 1000.0)
    ensures ParseTimeToMs(t) == Some(ms as real)
  {
    TwoPartRule(t, m, f, q as real, r as real / 1000.0);
  }

  /** Minutes and a seconds field within the minute read back as their milliseconds. */
  lemma MinutesAndSecondsRoundTrip(ms: nat, q: nat, r: nat)
    requires ms == q * 60000 + r && r < 60000
    ensures ParseTimeToMs(NatToString(q) + ":" + SecondsField(r)) == Some(ms as real)
  {
    var m, f := FieldsReadBack(q, r);
    RoundTripFromFields(NatToString(q) + ":" + SecondsField(r), ms, q, r, m, f);
  }

  /** Whole milliseconds survive formatting and parsing unchanged. */
  lemma FormatParseRoundTrip(ms: nat)
    ensures ParseTimeToMs(FormatTime(ms)) == Some(ms as real)
  {
    MinutesAndSecondsRoundTrip(ms, ms / 60000, ms % 60000);
  }
}
