/**
 * The race results page: the classification of the selected Grand Prix,
 * the time and fastest-lap cells with their fallbacks, and the colours of
 * the position badges.
 */
module RaceResults {
  import opened Wrappers
  import opened Seqs
  import opened Chrono
  import opened Domain
  import opened RaceSelection

  /** The season loads; the auto-select effect picks the last race dated strictly before now. */
  function AutoSelectRace(races: Option<seq<Race>>, selected: Option<Race>, parse: string -> Instant, now: int): Option<Race>
  {
    AutoSelect(races, selected, parse, now, BeforeNow)
  }

  /**
   * A race on the current instant is never picked here, though the other
   * result pages pick it: the strict comparison excludes it.
   */
  lemma AutoSelectSkipsNow(races: seq<Race>, parse: string -> Instant, now: int)
    requires |races| > 0 && parse(races[|races| - 1].date) == At(now)
    ensures var pick := AutoSelectRace(Some(races), None, parse, now);
      pick.Some? ==> exists k :: 0 <= k < |races| - 1 && races[k] == pick.value && Before(parse(races[k].date), At(now))
  {
    AutoSelectSpec(Some(races), None, parse, now, BeforeNow);
    var pick := AutoSelectRace(Some(races), None, parse, now);
    if pick.Some? {
      var k :| 0 <= k < |races| && races[k] == pick.value && PastTest(parse, now, BeforeNow)(races[k]);
      assert PastTest(parse, now, BeforeNow)(races[k]) == Before(parse(races[k].date), At(now));
      assert k != |races| - 1;
    }
  }

  /** `raceResults?.[0]?.Results || []` */
  function Classification(data: Option<seq<Race>>): seq<RaceResult>
  {
    FirstRaceList(data, ResultsOf)
  }

  // ---------------------------------------------------------------------
  // Cells with fallbacks

  /** The "Time" cell: `result.Time ? result.Time.time : result.status`. */
  function TimeCell(r: RaceResult): string
  {
    match r.time
    case Some(t) => t
    case None => r.status
  }

  /** What the "Fastest Lap" cell shows. */
  datatype FastestLapCell = Dash | LapTime(time: string, lap: string)

  /** `result.FastestLap ? (time, "Lap " + lap) : '-'` */
  function FastestLapCellOf(r: RaceResult): FastestLapCell
  {
    match r.fastestLap
    case Some(f) => LapTime(f.time, f.lap)
    case None => Dash
  }

  /**
   * A finisher with a time shows it and anyone else shows their status
   * (such as "+1 Lap" or "Retired"); the fastest-lap cell is "-" exactly
   * when the result carries no fastest lap.
   */
  lemma CellsSpec(r: RaceResult)
    ensures r.time.Some? ==> TimeCell(r) == r.time.value
    ensures r.time.None? ==> TimeCell(r) == r.status
    ensures FastestLapCellOf(r).Dash? <==> r.fastestLap.None?
    ensures r.fastestLap.Some? ==> FastestLapCellOf(r) == LapTime(r.fastestLap.value.time, r.fastestLap.value.lap)
  {
  }

  // ---------------------------------------------------------------------
  // Position badges

  /** Within 10 scores points. */
  const ResultLimits: seq<int> := [10]

  /** `PositionBadge`: podium colours, then 4-10, then the rest. */
  function BadgeTier(pos: int): PositionTier
  {
    TierOf(pos, ResultLimits)
  }

  lemma BadgeTierSpec(pos: int)
    ensures BadgeTier(pos) == Winner <==> pos == 1
    ensures BadgeTier(pos) == Second <==> pos == 2
    ensures BadgeTier(pos) == Third <==> pos == 3
    ensures 4 <= pos <= 10 ==> BadgeTier(pos) == Band(0)
    ensures pos > 10 ==> BadgeTier(pos) == Band(1)
  {
    if pos !in {1, 2, 3} {
      if pos <= 10 {
        TierBands(pos, ResultLimits, 0);
      } else {
        TierBands(pos, ResultLimits, 1);
      }
    }
  }
}
