/**
 * What the result pages (qualifying, race results, sprints, pit stops and
 * lap times) share: the effect that picks the most recent race once the
 * season has loaded, the list read from the first race of a fetched
 * round, and the colour band of a position badge.
 */
module RaceSelection {
  import opened Wrappers
  import opened Seqs
  import opened Chrono
  import opened Domain

  // ---------------------------------------------------------------------
  // Auto-selection

  /** The comparison a page applies to `new Date(race.date)` and `now`. */
  datatype Cutoff =
    | AtOrBeforeNow  // `raceDate <= now`
    | BeforeNow      // `raceDate < now`

  function PastTest(parse: string -> Instant, now: int, cutoff: Cutoff): Race -> bool
  {
    match cutoff
    case AtOrBeforeNow => (r: Race) => AtOrBefore(parse(r.date), At(now))
    case BeforeNow => (r: Race) => Before(parse(r.date), At(now))
  }

  /**
   * The auto-select effect: with the season loaded, non-empty and nothing
   * selected yet, the last race in list order that passes the cutoff, that
   * is `pastRaces[pastRaces.length - 1]`; `None` when the effect sets
   * nothing.
   */
  function AutoSelect(races: Option<seq<Race>>, selected: Option<Race>, parse: string -> Instant,
                      now: int, cutoff: Cutoff): Option<Race>
  {
    if races.Some? && |races.value| > 0 && selected.None? then
      var past := Filter(races.value, PastTest(parse, now, cutoff));
      if |past| > 0 then Some(past[|past| - 1]) else None
    else None
  }

  /**
   * The effect selects only when nothing is selected and the season is
   * non-empty, and then exactly when some race passes the cutoff: it picks
   * the race at the last such index, so no later race in the list passes.
   */
  lemma AutoSelectSpec(races: Option<seq<Race>>, selected: Option<Race>, parse: string -> Instant,
                       now: int, cutoff: Cutoff)
    ensures var pick := AutoSelect(races, selected, parse, now, cutoff);
      && (selected.Some? || races.None? ==> pick.None?)
      && (races.Some? && selected.None? ==>
            (pick.Some? <==> exists i :: 0 <= i < |races.value| && PastTest(parse, now, cutoff)(races.value[i])))
    ensures var pick := AutoSelect(races, selected, parse, now, cutoff);
      pick.Some? ==> exists k :: (0 <= k < |races.value| && races.value[k] == pick.value
        && PastTest(parse, now, cutoff)(races.value[k])
        && (forall j :: k < j < |races.value| ==> !PastTest(parse, now, cutoff)(races.value[j])))
  {
    if races.Some? && selected.None? {
      var s, p := races.value, PastTest(parse, now, cutoff);
      LastOfFilter(s, p);
      var last := LastMatch(s, p);
      if last.Some? {
        assert s[last.value] == AutoSelect(races, selected, parse, now, cutoff).value;
      } else {
        assert forall i :: 0 <= i < |s| ==> !p(s[i]);
      }
    }
  }

  /** A race dated exactly now counts for the `<=` pages and not for the `<` page. */
  lemma CutoffsDiffer(race: Race, parse: string -> Instant, now: int)
    requires parse(race.date) == At(now)
    ensures PastTest(parse, now, AtOrBeforeNow)(race) && !PastTest(parse, now, BeforeNow)(race)
  {
  }

  // ---------------------------------------------------------------------
  // The fetched round

  /**
   * `data?.[0]?.<list> || []`: the list of the first race returned, or the
   * empty list when there is no data, no race or no such list.
   */
  function FirstRaceList<T>(data: Option<seq<Race>>, field: Race -> Option<seq<T>>): (r: seq<T>)
    ensures r != [] ==> data.Some? && |data.value| > 0 && field(data.value[0]) == Some(r)
    ensures data.Some? && |data.value| > 0 && field(data.value[0]).Some? ==> r == field(data.value[0]).value
  {
    if data.Some? && |data.value| > 0 && field(data.value[0]).Some? then field(data.value[0]).value else []
  }

  function QualifyingOf(r: Race): Option<seq<QualifyingResult>> { r.qualifyingResults }
  function ResultsOf(r: Race): Option<seq<RaceResult>> { r.results }
  function SprintOf(r: Race): Option<seq<SprintResult>> { r.sprintResults }

  // ---------------------------------------------------------------------
  // Position badges

  /**
   * The colour of a position badge: the three podium colours, then one
   * band per limit (`pos <= limit`, in order), then the last colour.
   */
  datatype PositionTier = Winner | Second | Third | Band(index: nat)

  /** The first limit the position is within, or the number of limits. */
  function BandOf(pos: int, limits: seq<int>): (k: nat)
    ensures k <= |limits|
    ensures forall j :: 0 <= j < k ==> pos > limits[j]
    ensures k < |limits| ==> pos <= limits[k]
  {
    if limits == [] then 0
    else if pos <= limits[0] then 0
    else 1 + BandOf(pos, limits[1..])
  }

  /** `getPositionStyling(parseInt(position))` */
  function TierOf(pos: int, limits: seq<int>): PositionTier
  {
    if pos == 1 then Winner
    else if pos == 2 then Second
    else if pos == 3 then Third
    else Band(BandOf(pos, limits))
  }

  /**
   * A position past the podium is in band `k` exactly when it exceeds the
   * first `k` limits and not the next one.
   */
  lemma TierBands(pos: int, limits: seq<int>, k: nat)
    requires pos !in {1, 2, 3}
    requires k <= |limits|
    requires forall j :: 0 <= j < k ==> pos > limits[j]
    requires k < |limits| ==> pos <= limits[k]
    ensures TierOf(pos, limits) == Band(k)
  {
  }
}
