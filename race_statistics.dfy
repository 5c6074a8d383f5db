/**
 * The `statistics` memo of the season-statistics page: the race calendar
 * split at the current instant, counts and `parseInt` sums over the two
 * championship tables, the leaders, and the derived ratios.
 */
module RaceStatistics {
  import opened Wrappers
  import opened Seqs
  import opened Chrono
  import opened Domain

  datatype RaceFigures = RaceFigures(total: nat, completed: nat, upcoming: nat, progress: Option<real>)

  datatype DriverFigures = DriverFigures(
    total: nat,
    withPoints: nat,
    withWins: nat,
    totalPoints: int,
    totalWins: int,
    averagePoints: real,
    leader: Standing,
    mostWins: Standing,
    leaderGap: int)

  datatype ConstructorFigures = ConstructorFigures(
    total: nat,
    withPoints: nat,
    withWins: nat,
    totalPoints: int,
    leader: Standing,
    mostWins: Standing)

  datatype Statistics = Statistics(races: RaceFigures, drivers: DriverFigures, constructors: ConstructorFigures)

  /**
   * What the memo yields: `null` while a list is missing, a `TypeError` from
   * `reduce` without a seed over an empty table, or the figures.
   */
  datatype Outcome = NotReady | Throws | Ready(stats: Statistics)

  // ---------------------------------------------------------------------
  // The tests the filters apply

  /** `new Date(race.date) < currentDate` */
  function CompletedTest(parse: string -> Instant, now: int): Race -> bool
  {
    (r: Race) => Before(parse(r.date), At(now))
  }

  /** `new Date(race.date) >= currentDate` */
  function UpcomingTest(parse: string -> Instant, now: int): Race -> bool
  {
    (r: Race) => AtOrAfter(parse(r.date), At(now))
  }

  /** A race date that `new Date` cannot read; it lands in neither list. */
  function InvalidDateTest(parse: string -> Instant): Race -> bool
  {
    (r: Race) => parse(r.date).InvalidDate?
  }

  function PointsOf(s: Standing): int { s.points }
  function WinsOf(s: Standing): int { s.wins }
  predicate HasPoints(s: Standing) { s.points > 0 }
  predicate HasWins(s: Standing) { s.wins > 0 }

  // ---------------------------------------------------------------------
  // Leaders

  /**
   * The position of the entry `reduce((prev, current) => current.wins >
   * prev.wins ? current : prev)` returns: a greatest number of wins, and the
   * first such entry, because a tie keeps `prev`.
   */
  function MostWinsIndex(s: seq<Standing>): (k: nat)
    requires |s| > 0
    ensures k < |s|
    ensures forall j :: 0 <= j < |s| ==> s[j].wins <= s[k].wins
    ensures forall j :: 0 <= j < k ==> s[j].wins < s[k].wins
  {
    if |s| == 1 then 0
    else
      var prev := MostWinsIndex(s[..|s| - 1]);
      if s[|s| - 1].wins > s[prev].wins then |s| - 1 else prev
  }

  /** `parseInt(leader.points) - parseInt(standings[1].points)` when a second entry exists, else 0. */
  function LeaderGap(s: seq<Standing>): (gap: int)
    ensures |s| < 2 ==> gap == 0
  {
    if |s| >= 2 then s[0].points - s[1].points else 0
  }

  /** With the table in championship order, the leader is never behind the runner-up. */
  lemma LeaderGapNonNegative(s: seq<Standing>)
    requires forall i, j :: 0 <= i < j < |s| ==> s[i].points >= s[j].points
    ensures LeaderGap(s) >= 0
    ensures |s| >= 2 ==> LeaderGap(s) == s[0].points - s[1].points
  {
  }

  // ---------------------------------------------------------------------
  // The figures

  /** `(completedRaces.length / races.length) * 100`; NaN (None) for an empty calendar. */
  function Progress(completed: nat, total: nat): (p: Option<real>)
    requires completed <= total
    ensures p.None? <==> total == 0
    ensures p.Some? ==> 0.0 <= p.value <= 100.0
    ensures p.Some? ==> p.value * total as real == completed as real * 100.0
  {
    if total == 0 then None else Some(completed as real / total as real * 100.0)
  }

  function RaceFiguresOf(races: seq<Race>, parse: string -> Instant, now: int): (f: RaceFigures)
    ensures f.total == |races|
    ensures f.completed + f.upcoming <= f.total
  {
    var completed := Count(races, CompletedTest(parse, now));
    var upcoming := Count(races, UpcomingTest(parse, now));
    RaceSplit(races, parse, now);
    RaceFigures(|races|, completed, upcoming, Progress(completed, |races|))
  }

  function DriverFiguresOf(d: seq<Standing>): (f: DriverFigures)
    requires |d| > 0
    ensures f.total == |d| && f.leader == d[0]
    ensures f.averagePoints * f.total as real == f.totalPoints as real
  {
    var totalPoints := SumInt(d, PointsOf);
    MeanTimesCount(totalPoints as real, |d| as real);
    DriverFigures(
      |d|,
      Count(d, HasPoints),
      Count(d, HasWins),
      totalPoints,
      SumInt(d, WinsOf),
      totalPoints as real / |d| as real,
      d[0],
      d[MostWinsIndex(d)],
      LeaderGap(d))
  }

  lemma MeanTimesCount(sum: real, n: real)
    requires n > 0.0
    ensures sum / n * n == sum
  {
  }

  function ConstructorFiguresOf(c: seq<Standing>): (f: ConstructorFigures)
    requires |c| > 0
    ensures f.total == |c| && f.leader == c[0]
  {
    ConstructorFigures(
      |c|,
      Count(c, HasPoints),
      Count(c, HasWins),
      SumInt(c, PointsOf),
      c[0],
      c[MostWinsIndex(c)])
  }

  /**
   * The memo: `null` unless all three lists have arrived (an empty list is
   * still truthy), then the figures. `reduce` without a seed runs over the
   * driver table and then the constructor table, and throws on an empty one.
   */
  function Compute(drivers: Option<seq<Standing>>, constructors: Option<seq<Standing>>,
                   races: Option<seq<Race>>, parse: string -> Instant, now: int): (r: Outcome)
    ensures r.NotReady? <==> drivers.None? || constructors.None? || races.None?
    ensures r.Throws? <==> drivers.Some? && constructors.Some? && races.Some? &&
                           (drivers.value == [] || constructors.value == [])
  {
    if drivers.None? || constructors.None? || races.None? then NotReady
    else if |drivers.value| == 0 || |constructors.value| == 0 then Throws
    else Ready(Statistics(
      RaceFiguresOf(races.value, parse, now),
      DriverFiguresOf(drivers.value),
      ConstructorFiguresOf(constructors.value)))
  }

  // ---------------------------------------------------------------------
  // Properties

  /**
   * Every race is completed, upcoming, or has an unreadable date, and only
   * one of these; so completed and upcoming partition the calendar when
   * every date reads.
   */
  lemma RaceSplit(races: seq<Race>, parse: string -> Instant, now: int)
    ensures Count(races, CompletedTest(parse, now)) + Count(races, UpcomingTest(parse, now))
            + Count(races, InvalidDateTest(parse)) == |races|
  {
    var p, q, r := CompletedTest(parse, now), UpcomingTest(parse, now), InvalidDateTest(parse);
    forall x: Race
      ensures (p(x) ==> !q(x) && !r(x)) && (q(x) ==> !r(x)) && (p(x) || q(x) || r(x))
    {
      assert p(x) == Before(parse(x.date), At(now));
      assert q(x) == AtOrAfter(parse(x.date), At(now));
      assert r(x) == parse(x.date).InvalidDate?;
    }
    FilterPartition3(races, p, q, r);
  }

  lemma RacePartition(races: seq<Race>, parse: string -> Instant, now: int)
    requires forall i :: 0 <= i < |races| ==> parse(races[i].date).At?
    ensures var f := RaceFiguresOf(races, parse, now);
      f.completed + f.upcoming == f.total
  {
    RaceSplit(races, parse, now);
    FilterNone(races, InvalidDateTest(parse));
  }

  /** The "with points" and "with wins" counts never exceed the table size. */
  lemma CountsBounded(s: seq<Standing>)
    ensures Count(s, HasPoints) <= |s| && Count(s, HasWins) <= |s|
  {
    FilterSound(s, HasPoints);
    FilterSound(s, HasWins);
  }

  /**
   * With no negative entries, a sum is zero exactly when no entry is
   * positive, and it is at least the number of positive entries.
   */
  lemma {:induction false} PositiveEntries(s: seq<Standing>, f: Standing -> int, positive: Standing -> bool)
    requires forall x :: positive(x) <==> f(x) > 0
    requires forall j :: 0 <= j < |s| ==> f(s[j]) >= 0
    ensures Count(s, positive) <= SumInt(s, f)
    ensures SumInt(s, f) == 0 <==> Count(s, positive) == 0
  {
    if s != [] {
      PositiveEntries(s[..|s| - 1], f, positive);
    }
  }

  /**
   * Driver totals: points are zero exactly when nobody has scored, and the
   * drivers with a win are no more than the wins.
   */
  lemma DriverTotals(d: seq<Standing>)
    requires |d| > 0
    requires forall j :: 0 <= j < |d| ==> d[j].points >= 0 && d[j].wins >= 0
    ensures var f := DriverFiguresOf(d);
      && (f.totalPoints == 0 <==> f.withPoints == 0)
      && f.withPoints <= f.totalPoints
      && f.withWins <= f.totalWins
      && f.withPoints <= f.total && f.withWins <= f.total
  {
    PositiveEntries(d, PointsOf, HasPoints);
    PositiveEntries(d, WinsOf, HasWins);
    CountsBounded(d);
  }

  /** The most-wins entries are the first entries with the greatest number of wins. */
  lemma MostWinsSpec(stats: Statistics, d: seq<Standing>, c: seq<Standing>, races: seq<Race>,
                     parse: string -> Instant, now: int)
    requires Compute(Some(d), Some(c), Some(races), parse, now) == Ready(stats)
    ensures stats.drivers.mostWins in d && stats.constructors.mostWins in c
    ensures forall j :: 0 <= j < |d| ==> d[j].wins <= stats.drivers.mostWins.wins
    ensures forall j :: 0 <= j < |c| ==> c[j].wins <= stats.constructors.mostWins.wins
    ensures exists k :: 0 <= k < |d| && d[k] == stats.drivers.mostWins &&
                        (forall j :: 0 <= j < k ==> d[j].wins < d[k].wins)
  {
    var k := MostWinsIndex(d);
    assert d[k] == stats.drivers.mostWins;
  }
}
