/**
 * The `useCountdown` hook and `formatCountdown`: the time left until a
 * target, split into days, hours, minutes and seconds, and its short
 * textual form.
 */
module Countdown {
  import opened Wrappers
  import opened Text
  import opened Chrono
  import opened Domain

  const MsPerMinute: int := 60_000
  const MsPerHour: int := 3_600_000

  datatype CountdownTime = CountdownTime(days: int, hours: int, minutes: int, seconds: int, totalSeconds: int)

  /**
   * The hook's value: null (no target), the record computed from an invalid
   * target (every field NaN), or a record of whole numbers.
   */
  datatype TimeLeft = NoTarget | NotANumber | Known(time: CountdownTime)

  /** The decomposition inside `updateCountdown`, for `difference = target - now` in milliseconds. */
  function Decompose(difference: int): CountdownTime
  {
    if difference <= 0 then CountdownTime(0, 0, 0, 0, 0)
    else CountdownTime(
      difference / MsPerDay,
      (difference % MsPerDay) / MsPerHour,
      (difference % MsPerHour) / MsPerMinute,
      (difference % MsPerMinute) / MsPerSecond,
      difference / MsPerSecond)
  }

  /** Quotient and remainder are the only such pair. */
  lemma DivModUnique(a: int, n: int, q: int, r: int)
    requires n > 0 && 0 <= r < n && a == q * n + r
    ensures a / n == q && a % n == r
  {
    var q0, r0 := a / n, a % n;
    assert (q - q0) * n == r0 - r;
    if q > q0 {
      MulAtLeast(q - q0, n);
    } else if q < q0 {
      MulAtLeast(q0 - q, n);
    }
  }

  lemma MulAtLeast(k: int, n: int)
    requires k >= 1 && n > 0
    ensures k * n >= n
  {
  }

  /**
   * A difference of zero or less gives all zeros. A positive one gives
   * hours, minutes and seconds within their clock ranges, and the four
   * fields add back up to the whole seconds left.
   */
  lemma {:induction false} DecomposeSpec(difference: int)
    ensures var c := Decompose(difference);
      && (difference <= 0 ==> c == CountdownTime(0, 0, 0, 0, 0))
      && (difference > 0 ==>
            && c.days >= 0 && 0 <= c.hours < 24 && 0 <= c.minutes < 60 && 0 <= c.seconds < 60
            && c.totalSeconds == difference / 1000
            && c.days * 86400 + c.hours * 3600 + c.minutes * 60 + c.seconds == c.totalSeconds)
  {
    if difference > 0 {
      var d, rd := difference / MsPerDay, difference % MsPerDay;
      var h, rh := rd / MsPerHour, rd % MsPerHour;
      DivModUnique(difference, MsPerHour, d * 24 + h, rh);
      var m, rm := rh / MsPerMinute, rh % MsPerMinute;
      DivModUnique(difference, MsPerMinute, (d * 24 + h) * 60 + m, rm);
      var sec, rs := rm / 1000, rm % 1000;
      DivModUnique(difference, 1000, ((d * 24 + h) * 60 + m) * 60 + sec, rs);
    }
  }

  /** The value `updateCountdown` stores, with `new Date(targetDate)` given as `parse`. */
  function Compute(targetDate: Option<string>, parse: string -> Instant, now: int): TimeLeft
  {
    if !Truthy(targetDate) then NoTarget
    else match parse(targetDate.value)
      case InvalidDate => NotANumber
      case At(target) => Known(Decompose(target - now))
  }

  /** The hook's state cell, refreshed on mount, on target change and every second. */
  class CountdownHook {
    var timeLeft: TimeLeft

    constructor ()
      ensures timeLeft == NoTarget
    {
      timeLeft := NoTarget;
    }

    /** One run of the effect or one tick of its interval, at time `now`. */
    method Update(targetDate: Option<string>, parse: string -> Instant, now: int)
      modifies this
      ensures timeLeft == Compute(targetDate, parse, now)
    {
      if !Truthy(targetDate) {
        timeLeft := NoTarget;
      } else {
        timeLeft := Compute(targetDate, parse, now);
      }
    }
  }

  /** `formatCountdown` */
  function FormatCountdown(t: TimeLeft): string
  {
    match t
    case NoTarget => ""
    case NotANumber => "NaNs"
    case Known(c) =>
      if c.days > 0 then IntToString(c.days) + "d " + IntToString(c.hours) + "h " + IntToString(c.minutes) + "m"
      else if c.hours > 0 then IntToString(c.hours) + "h " + IntToString(c.minutes) + "m " + IntToString(c.seconds) + "s"
      else if c.minutes > 0 then IntToString(c.minutes) + "m " + IntToString(c.seconds) + "s"
      else IntToString(c.seconds) + "s"
  }

  /** The fields `formatCountdown` shows, largest unit first, starting at the first non-zero of days, hours, minutes. */
  function ShownFields(c: CountdownTime): seq<string>
  {
    if c.days > 0 then [IntToString(c.days) + "d", IntToString(c.hours) + "h", IntToString(c.minutes) + "m"]
    else if c.hours > 0 then [IntToString(c.hours) + "h", IntToString(c.minutes) + "m", IntToString(c.seconds) + "s"]
    else if c.minutes > 0 then [IntToString(c.minutes) + "m", IntToString(c.seconds) + "s"]
    else [IntToString(c.seconds) + "s"]
  }

  lemma NoSpaceInNumber(i: int)
    ensures ' ' !in IntToString(i)
  {
    var s := IntToString(i);
    if i < 0 {
      assert s == "-" + NatToString(-i);
      assert forall j :: 0 < j < |s| ==> s[j] == NatToString(-i)[j - 1];
    }
  }

  lemma UnitsJoin3(a: string, x: char, b: string, y: char, d: string, z: char)
    ensures a + [x, ' '] + b + [y, ' '] + d + [z] == Join([a + [x], b + [y], d + [z]], ' ')
  {
    Join3(a + [x], b + [y], d + [z], ' ');
  }

  lemma UnitsJoin2(a: string, x: char, b: string, y: char)
    ensures a + [x, ' '] + b + [y] == Join([a + [x], b + [y]], ' ')
  {
    Join2(a + [x], b + [y], ' ');
  }

  lemma FormatIsJoin(c: CountdownTime)
    ensures FormatCountdown(Known(c)) == Join(ShownFields(c), ' ')
  {
    var d, h, m, sec := IntToString(c.days), IntToString(c.hours), IntToString(c.minutes), IntToString(c.seconds);
    if c.days > 0 {
      UnitsJoin3(d, 'd', h, 'h', m, 'm');
    } else if c.hours > 0 {
      UnitsJoin3(h, 'h', m, 'm', sec, 's');
    } else if c.minutes > 0 {
      UnitsJoin2(m, 'm', sec, 's');
    }
  }

  lemma ShownFieldsHaveNoSpace(c: CountdownTime)
    ensures NoneContains(ShownFields(c), ' ')
  {
    NoSpaceInNumber(c.days);
    NoSpaceInNumber(c.hours);
    NoSpaceInNumber(c.minutes);
    NoSpaceInNumber(c.seconds);
  }

  /**
   * The null countdown formats as the empty string; a known one splits on
   * spaces into exactly the shown fields, three when days or hours are
   * non-zero, two when only minutes are, and the seconds alone otherwise.
   */
  lemma FormatCountdownFields(t: TimeLeft)
    ensures t.NoTarget? ==> FormatCountdown(t) == ""
    ensures t.NotANumber? ==> FormatCountdown(t) == "NaNs"
    ensures t.Known? ==> Split(FormatCountdown(t), ' ') == ShownFields(t.time)
  {
    if t.Known? {
      FormatIsJoin(t.time);
      ShownFieldsHaveNoSpace(t.time);
      SplitJoin(ShownFields(t.time), ' ');
    }
  }

  /** A target more than a day ahead shows whole days, then the hours and minutes of the remainder. */
  lemma FormatFarTarget(target: int, now: int)
    requires target - now >= MsPerDay
    ensures var c := Decompose(target - now);
      c.days >= 1 && ShownFields(c) == [IntToString(c.days) + "d", IntToString(c.hours) + "h", IntToString(c.minutes) + "m"]
  {}

  /**
   * A target less than a day ahead: from an hour ahead the whole hours are
   * shown first, from a minute ahead the whole minutes, and closer than a
   * minute the seconds alone (zero once the target has passed).
   */
  lemma FormatNearTarget(target: int, now: int)
    requires target - now < MsPerDay
    ensures var d, c := target - now, Decompose(target - now);
      d >= MsPerHour ==> (c.days == 0 && c.hours == d / MsPerHour >= 1 &&
        ShownFields(c) == [IntToString(c.hours) + "h", IntToString(c.minutes) + "m", IntToString(c.seconds) + "s"])
    ensures var d, c := target - now, Decompose(target - now);
      MsPerMinute <= d < MsPerHour ==> (c.days == 0 && c.hours == 0 && c.minutes == d / MsPerMinute >= 1 &&
        ShownFields(c) == [IntToString(c.minutes) + "m", IntToString(c.seconds) + "s"])
    ensures var d, c := target - now, Decompose(target - now);
      d < MsPerMinute ==> (c.seconds == (if d <= 0 then 0 else d / MsPerSecond) &&
        ShownFields(c) == [IntToString(c.seconds) + "s"])
  {}
}
