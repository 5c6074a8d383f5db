/**
 * The season calendar page: each race card's start instant and status
 * badge, and the split of the season into upcoming and completed races.
 */
module RacesPage {
  import opened Wrappers
  import opened Seqs
  import opened Chrono
  import opened Domain
  import Countdown

  /** The start time assumed for a race without one. */
  const DefaultRaceTime: string := "00:00:00"

  /** Seven days in seconds: the window of the "THIS WEEK" badge. */
  const WeekSeconds: int := 7 * 24 * 60 * 60

  /** `${race.date}T${race.time || '00:00:00'}` */
  function RaceDateTime(race: Race): string
  {
    race.date + "T" + OrDefault(race.time, DefaultRaceTime)
  }

  /** A race with no start time, or an empty one, starts at midnight. */
  lemma MissingTimeIsMidnight(race: Race)
    requires !Truthy(race.time)
    ensures RaceDateTime(race) == RaceDateTime(race.(time := Some(DefaultRaceTime)))
    ensures RaceDateTime(race) == race.date + "T" + DefaultRaceTime
  {
  }

  /** The start text is never empty, so the card's countdown always has a target. */
  lemma RaceDateTimeTruthy(race: Race)
    ensures Truthy(Some(RaceDateTime(race)))
  {
    assert RaceDateTime(race)[|race.date|] == 'T';
  }

  // ---------------------------------------------------------------------
  // The status badge of a card

  /** `getRaceStatus`: "RACE DAY!", "THIS WEEK", "UPCOMING" or "FINISHED". */
  datatype RaceStatus = RaceDay | ThisWeek | Upcoming | Finished

  /** `raceDate > now`; an unreadable date is never later. */
  predicate IsUpcoming(race: Race, parse: string -> Instant, now: int)
  {
    After(parse(RaceDateTime(race)), At(now))
  }

  /**
   * `raceDate.toDateString() === now.toDateString()`, with `localDay` the
   * local calendar day of an instant; an unreadable date prints as
   * "Invalid Date" and is never today.
   */
  predicate IsToday(race: Race, parse: string -> Instant, localDay: int -> CivilDate, now: int)
  {
    parse(RaceDateTime(race)).At? && localDay(parse(RaceDateTime(race)).ms) == localDay(now)
  }

  /**
   * The branches of `getRaceStatus` in order. `countdown` is the value the
   * card's countdown hook holds: `null` is falsy and a NaN `totalSeconds`
   * fails the comparison.
   */
  function StatusOf(isToday: bool, isUpcoming: bool, countdown: Countdown.TimeLeft): RaceStatus
  {
    if isToday then RaceDay
    else if isUpcoming && countdown.Known? && countdown.time.totalSeconds <= WeekSeconds then ThisWeek
    else if isUpcoming then Upcoming
    else Finished
  }

  function RaceCardStatus(race: Race, parse: string -> Instant, localDay: int -> CivilDate, now: int,
                          countdown: Countdown.TimeLeft): RaceStatus
  {
    StatusOf(IsToday(race, parse, localDay, now), IsUpcoming(race, parse, now), countdown)
  }

  /**
   * The badge by cases: race day wins over every other status; otherwise an
   * upcoming race is "THIS WEEK" or "UPCOMING" according to the countdown,
   * and every other race is "FINISHED".
   */
  lemma StatusCases(isToday: bool, isUpcoming: bool, countdown: Countdown.TimeLeft)
    ensures isToday <==> StatusOf(isToday, isUpcoming, countdown) == RaceDay
    ensures StatusOf(isToday, isUpcoming, countdown) == Finished <==> !isToday && !isUpcoming
    ensures StatusOf(isToday, isUpcoming, countdown) in {ThisWeek, Upcoming} <==> !isToday && isUpcoming
    ensures StatusOf(isToday, isUpcoming, countdown) == ThisWeek ==> countdown.Known?
  {
  }

  lemma SecondsWithinWeek(d: int)
    requires d > 0
    ensures d / Chrono.MsPerSecond <= WeekSeconds <==> d < (WeekSeconds + 1) * 1000
  {
  }

  /**
   * With the countdown brought up to date for the card's start instant `t`,
   * a race that is not on today's date is "THIS WEEK" exactly when it
   * starts within the next seven days and one second, since the countdown
   * rounds down to whole seconds; later ones are "UPCOMING", earlier ones
   * "FINISHED". A race with an unreadable date is always "FINISHED".
   */
  lemma StatusWithCurrentCountdown(race: Race, parse: string -> Instant, localDay: int -> CivilDate, now: int)
    ensures var status := RaceCardStatus(race, parse, localDay, now,
                                         Countdown.Compute(Some(RaceDateTime(race)), parse, now));
      match parse(RaceDateTime(race))
      case InvalidDate => status == Finished
      case At(t) =>
        && (status == RaceDay <==> localDay(t) == localDay(now))
        && (status == ThisWeek <==> localDay(t) != localDay(now) && 0 < t - now < (WeekSeconds + 1) * 1000)
        && (status == Upcoming <==> localDay(t) != localDay(now) && t - now >= (WeekSeconds + 1) * 1000)
        && (status == Finished <==> localDay(t) != localDay(now) && t <= now)
  {
    RaceDateTimeTruthy(race);
    match parse(RaceDateTime(race))
    case InvalidDate =>
    case At(t) =>
      if t - now > 0 {
        SecondsWithinWeek(t - now);
      }
  }

  // ---------------------------------------------------------------------
  // Upcoming and completed races

  /** `raceDate > new Date()` */
  function UpcomingTest(parse: string -> Instant, now: int): Race -> bool
  {
    (r: Race) => After(parse(RaceDateTime(r)), At(now))
  }

  /** `raceDate <= new Date()` */
  function CompletedTest(parse: string -> Instant, now: int): Race -> bool
  {
    (r: Race) => AtOrBefore(parse(RaceDateTime(r)), At(now))
  }

  /** A start text `new Date` cannot read: neither comparison holds. */
  function UnreadableTest(parse: string -> Instant): Race -> bool
  {
    (r: Race) => parse(RaceDateTime(r)).InvalidDate?
  }

  /** `races?.filter(raceDate > now) || []` */
  function UpcomingList(races: Option<seq<Race>>, parse: string -> Instant, now: int): seq<Race>
  {
    if races.None? then [] else Filter(races.value, UpcomingTest(parse, now))
  }

  /** `races?.filter(raceDate <= now) || []` */
  function CompletedList(races: Option<seq<Race>>, parse: string -> Instant, now: int): seq<Race>
  {
    if races.None? then [] else Filter(races.value, CompletedTest(parse, now))
  }

  /** `completedRaces.reverse()`: the completed section lists the latest race first. */
  function CompletedShown(races: Option<seq<Race>>, parse: string -> Instant, now: int): seq<Race>
  {
    Reverse(CompletedList(races, parse, now))
  }

  /**
   * `!races || races.length === 0 && <message>`: `&&` binds tighter, so a
   * missing list renders `true`, which shows nothing; the message appears
   * only for a list that arrived empty.
   */
  function ShowsNoRacesMessage(races: Option<seq<Race>>): bool
  {
    if races.None? then false else |races.value| == 0
  }

  /**
   * Each list keeps the season order and holds only races passing its own
   * test; no race is in both, and every race whose start text reads is in
   * one of them, so the two counts and the unreadable ones add up to the
   * season.
   */
  lemma PartitionSpec(races: seq<Race>, parse: string -> Instant, now: int)
    ensures var up, done := UpcomingList(Some(races), parse, now), CompletedList(Some(races), parse, now);
      && IsSubsequence(up, races) && IsSubsequence(done, races)
      && (forall r :: r in up ==> r !in done)
      && |up| + |done| + Count(races, UnreadableTest(parse)) == |races|
      && (forall r :: r in races && parse(RaceDateTime(r)).At? ==> (r in up <==> r !in done))
  {
    var p, q, u := UpcomingTest(parse, now), CompletedTest(parse, now), UnreadableTest(parse);
    forall x: Race
      ensures (p(x) ==> !q(x) && !u(x)) && (q(x) ==> !u(x)) && (p(x) || q(x) || u(x))
    {
      assert p(x) == After(parse(RaceDateTime(x)), At(now));
      assert q(x) == AtOrBefore(parse(RaceDateTime(x)), At(now));
      assert u(x) == parse(RaceDateTime(x)).InvalidDate?;
    }
    FilterPartition3(races, q, p, u);
    FilterIsSubsequence(races, p);
    FilterIsSubsequence(races, q);
    FilterSound(races, p);
    FilterSound(races, q);
    forall i | 0 <= i < |races| && parse(RaceDateTime(races[i])).At?
      ensures races[i] in Filter(races, p) <==> races[i] !in Filter(races, q)
    {
      var x := races[i];
      assert p(x) == After(parse(RaceDateTime(x)), At(now));
      assert q(x) == AtOrBefore(parse(RaceDateTime(x)), At(now));
      if p(x) {
        FilterComplete(races, p, i);
      } else {
        FilterComplete(races, q, i);
      }
    }
  }

  /** With every start text readable, upcoming and completed together are the whole season. */
  lemma PartitionCovers(races: seq<Race>, parse: string -> Instant, now: int)
    requires forall i :: 0 <= i < |races| ==> parse(RaceDateTime(races[i])).At?
    ensures |UpcomingList(Some(races), parse, now)| + |CompletedList(Some(races), parse, now)| == |races|
  {
    PartitionSpec(races, parse, now);
    FilterNone(races, UnreadableTest(parse));
  }

  /**
   * The completed section shows the completed races latest first: reading
   * it backwards gives them in season order.
   */
  lemma CompletedShownOrder(races: Option<seq<Race>>, parse: string -> Instant, now: int)
    ensures var done, shown := CompletedList(races, parse, now), CompletedShown(races, parse, now);
      && |shown| == |done|
      && (forall i :: 0 <= i < |shown| ==> shown[i] == done[|done| - 1 - i])
      && Reverse(shown) == done
  {
    ReverseInvolution(CompletedList(races, parse, now));
  }

  /**
   * The "No races found" message never appears beside a section, and with
   * no list at all the page shows neither sections nor message.
   */
  lemma NoRacesMessageSpec(races: Option<seq<Race>>, parse: string -> Instant, now: int)
    ensures ShowsNoRacesMessage(races) ==> |UpcomingList(races, parse, now)| == 0 && |CompletedList(races, parse, now)| == 0
    ensures races.None? ==> !ShowsNoRacesMessage(races) && UpcomingList(races, parse, now) == [] && CompletedList(races, parse, now) == []
    ensures races.Some? && races.value != [] ==> !ShowsNoRacesMessage(races)
  {
    if races.Some? {
      FilterSound(races.value, UpcomingTest(parse, now));
      FilterSound(races.value, CompletedTest(parse, now));
    }
  }
}
