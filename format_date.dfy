/**
 * The date-formatting helpers. Parsing an ISO string and rendering a date
 * with a pattern are supplied as functions (`parseIso`, `render`); what is
 * modelled is how the helpers combine them, their fallbacks on invalid
 * input, the hour-and-minute cut of a time string, and the day buckets of
 * the relative-time label.
 */
module FormatDate {
  import opened Wrappers
  import opened Text
  import opened Chrono
  import opened Domain

  /** A date-rendering function: None when it throws. */
  type Renderer = (int, string) -> Option<string>

  const DefaultDatePattern: string := "dd/MM/yyyy"
  const DateTimePattern: string := "dd/MM/yyyy HH:mm"
  const RaceDateTimePattern: string := "EEEE, dd MMMM yyyy - HH:mm"

  /** `formatDate(dateString, pattern)`: the input itself when it does not parse or cannot be rendered. */
  function FormatDate(dateString: string, pattern: string, parseIso: string -> Instant, render: Renderer): string
  {
    match parseIso(dateString)
    case InvalidDate => dateString
    case At(t) => match render(t, pattern)
      case None => dateString
      case Some(r) => r
  }

  /** The string parsed when a time may be present: date and time joined by 'T'. */
  function DateTimeInput(dateString: string, timeString: Option<string>): string
  {
    if Truthy(timeString) then dateString + "T" + timeString.value else dateString
  }

  /** `formatDateTime`: on failure, the date string alone, never the joined input. */
  function FormatDateTime(dateString: string, timeString: Option<string>, parseIso: string -> Instant, render: Renderer): string
  {
    match parseIso(DateTimeInput(dateString, timeString))
    case InvalidDate => dateString
    case At(t) => match render(t, DateTimePattern)
      case None => dateString
      case Some(r) => r
  }

  /** `formatRaceDateTime`: on failure, the date formatted with the default pattern. */
  function FormatRaceDateTime(dateString: string, timeString: Option<string>, parseIso: string -> Instant, render: Renderer): string
  {
    match parseIso(DateTimeInput(dateString, timeString))
    case InvalidDate => FormatDate(dateString, DefaultDatePattern, parseIso, render)
    case At(t) => match render(t, RaceDateTimePattern)
      case None => FormatDate(dateString, DefaultDatePattern, parseIso, render)
      case Some(r) => r
  }

  /** Parsing `s` succeeds and rendering it with `pattern` does not throw. */
  predicate Renders(s: string, pattern: string, parseIso: string -> Instant, render: Renderer)
  {
    parseIso(s).At? && render(parseIso(s).ms, pattern).Some?
  }

  /**
   * Each helper returns the rendered text when its input parses and renders.
   * Otherwise, whether the date is invalid or `format` throws, it falls back:
   * `formatDate` and `formatDateTime` to the date string itself, and
   * `formatRaceDateTime` to `formatDate` of the date string, which is the
   * date string when that fails as well. The joined input is used only when
   * a time is given.
   */
  lemma FallbackSpec(dateString: string, timeString: Option<string>, pattern: string,
                     parseIso: string -> Instant, render: Renderer)
    ensures Renders(dateString, pattern, parseIso, render) ==>
      FormatDate(dateString, pattern, parseIso, render) == render(parseIso(dateString).ms, pattern).value
    ensures !Renders(dateString, pattern, parseIso, render) ==>
      FormatDate(dateString, pattern, parseIso, render) == dateString
    ensures DateTimeInput(dateString, timeString) ==
      if Truthy(timeString) then dateString + "T" + timeString.value else dateString
    ensures var input := DateTimeInput(dateString, timeString);
      && (Renders(input, DateTimePattern, parseIso, render) ==>
            FormatDateTime(dateString, timeString, parseIso, render) == render(parseIso(input).ms, DateTimePattern).value)
      && (!Renders(input, DateTimePattern, parseIso, render) ==>
            FormatDateTime(dateString, timeString, parseIso, render) == dateString)
    ensures var input := DateTimeInput(dateString, timeString);
      && (Renders(input, RaceDateTimePattern, parseIso, render) ==>
            FormatRaceDateTime(dateString, timeString, parseIso, render) == render(parseIso(input).ms, RaceDateTimePattern).value)
      && (!Renders(input, RaceDateTimePattern, parseIso, render) ==>
            FormatRaceDateTime(dateString, timeString, parseIso, render) == FormatDate(dateString, DefaultDatePattern, parseIso, render))
      && (!Renders(input, RaceDateTimePattern, parseIso, render) && !Renders(dateString, DefaultDatePattern, parseIso, render) ==>
            FormatRaceDateTime(dateString, timeString, parseIso, render) == dateString)
  {}

  /** `formatTimeOnly`: the first two ':'-separated fields; a missing one reads "undefined". */
  function FormatTimeOnly(timeString: string): string
  {
    var parts := Split(timeString, ':');
    var minutes := if |parts| >= 2 then parts[1] else "undefined";
    parts[0] + ":" + minutes
  }

  /** "HH:mm:ss" is cut to "HH:mm"; "HH:mm" comes back unchanged; a string with no ':' gains ":undefined". */
  lemma FormatTimeOnlySpec(hours: string, minutes: string, seconds: string)
    requires ':' !in hours && ':' !in minutes && ':' !in seconds
    ensures FormatTimeOnly(hours + ":" + minutes + ":" + seconds) == hours + ":" + minutes
    ensures FormatTimeOnly(hours + ":" + minutes) == hours + ":" + minutes
    ensures FormatTimeOnly(hours) == hours + ":" + "undefined"
  {
    assert hours + ":" + minutes + ":" + seconds == hours + [':'] + minutes + [':'] + seconds;
    SplitThree(hours, minutes, seconds, ':');
    assert hours + ":" + minutes == hours + [':'] + minutes;
    SplitTwo(hours, minutes, ':');
  }

  /** `Math.ceil(a / b)` for a positive divisor. */
  function CeilDiv(a: int, b: int): (r: int)
    requires b > 0
    ensures (r - 1) * b < a <= r * b
  {
    -((-a) / b)
  }

  /** The label for a date `days` whole days ahead (negative: behind). */
  function DayLabel(days: int): string
  {
    if days > 0 then "C\U{F2}n " + IntToString(days) + " ng\U{E0}y"
    else if days == 0 then "H\U{F4}m nay"
    else if days == -1 then "H\U{F4}m qua"
    else IntToString(-days) + " ng\U{E0}y tr\U{1B0}\U{1EDB}c"
  }

  /** `getRelativeTime`, with `now` in milliseconds. */
  function RelativeTime(dateString: string, parseIso: string -> Instant, now: int): string
  {
    match parseIso(dateString)
    case InvalidDate => ""
    case At(t) => DayLabel(CeilDiv(t - now, MsPerDay))
  }

  /**
   * The buckets by the real distance to the date: "today" covers the
   * 24 hours up to and including now, "yesterday" the 24 hours before
   * those, "in n days" any instant in the n-th 24 hours ahead, and
   * "n days ago" the n-th 24 hours behind for n >= 2; an invalid date gives
   * the empty string.
   */
  lemma RelativeTimeBuckets(dateString: string, parseIso: string -> Instant, now: int, n: int)
    ensures parseIso(dateString).InvalidDate? ==> RelativeTime(dateString, parseIso, now) == ""
    ensures parseIso(dateString).At? ==>
      var diff := parseIso(dateString).ms - now;
      && (-MsPerDay < diff <= 0 ==> RelativeTime(dateString, parseIso, now) == "H\U{F4}m nay")
      && (-2 * MsPerDay < diff <= -MsPerDay ==> RelativeTime(dateString, parseIso, now) == "H\U{F4}m qua")
      && (n >= 1 && (n - 1) * MsPerDay < diff <= n * MsPerDay ==>
            RelativeTime(dateString, parseIso, now) == "C\U{F2}n " + IntToString(n) + " ng\U{E0}y")
      && (n >= 2 && -(n + 1) * MsPerDay < diff <= -n * MsPerDay ==>
            RelativeTime(dateString, parseIso, now) == IntToString(n) + " ng\U{E0}y tr\U{1B0}\U{1EDB}c")
  {
    if parseIso(dateString).At? {
      var diff := parseIso(dateString).ms - now;
      CeilUnique(diff, MsPerDay, 0);
      CeilUnique(diff, MsPerDay, -1);
      CeilUnique(diff, MsPerDay, n);
      CeilUnique(diff, MsPerDay, -n);
    }
  }

  /** Any r with (r - 1) * b < a <= r * b is the ceiling. */
  lemma CeilUnique(a: int, b: int, r: int)
    requires b > 0
    ensures (r - 1) * b < a <= r * b ==> CeilDiv(a, b) == r
  {
    if (r - 1) * b < a <= r * b {
      var c := CeilDiv(a, b);
      assert (c - 1) * b < r * b && (r - 1) * b < c * b;
    }
  }
}
