/**
 * The pit-stop analytics page: the per-driver tally built by a `forEach`
 * over the fetched stops, the averages pass, the ranking by average, the
 * overall fastest stop and mean, and the lap-ordered timeline sort.
 *
 * Durations arrive here already parsed (`PitStop.duration` is the number
 * `parseFloat(stop.duration)` gives).
 */
module PitStops {
  import opened Wrappers
  import opened Seqs
  import opened Sorting
  import opened Domain
  import opened GroupBy

  /** `DriverPitStopStats`; `driverName` is the driver id and `nationality` is empty, as the page fills them. */
  datatype DriverPitStats = DriverPitStats(
    driverId: string,
    driverName: string,
    nationality: string,
    totalStops: nat,
    averageDuration: real,
    fastestStop: real,
    slowestStop: real,
    totalTime: real,
    stops: seq<PitStop>)

  datatype PitAnalytics = PitAnalytics(
    allStops: seq<PitStop>,
    driverStats: seq<DriverPitStats>,
    fastestStop: PitStop,
    totalStops: nat,
    averageStopTime: real)

  function DurationOf(p: PitStop): real { p.duration }
  function DriverOf(p: PitStop): string { p.driverId }
  function AverageOf(t: DriverPitStats): real { t.averageDuration }
  function StopsOf(t: DriverPitStats): int { t.totalStops }
  function LapOf(p: PitStop): real { p.lap as real }

  // ---------------------------------------------------------------------
  // The per-driver tally

  /**
   * The record the page creates the first time a driver is met. Its
   * `fastestStop` is `Infinity` in the page; here that is represented by
   * `totalStops == 0`, which `AddStop` reads as "no stop to compare with".
   */
  function Unvisited(id: string): DriverPitStats
  {
    DriverPitStats(id, id, "", 0, 0.0, 0.0, 0.0, 0.0, [])
  }

  /** The body of the `forEach`: count, add, `Math.min`, `Math.max`, push. */
  function AddStop(t: DriverPitStats, p: PitStop): DriverPitStats
  {
    var d := p.duration;
    t.(totalStops := t.totalStops + 1,
       totalTime := t.totalTime + d,
       fastestStop := if t.totalStops == 0 || d < t.fastestStop then d else t.fastestStop,
       slowestStop := if d > t.slowestStop then d else t.slowestStop,
       stops := t.stops + [p])
  }

  /** Driver `id`'s record after the `forEach` has visited `s`. */
  function Tally(id: string, s: seq<PitStop>): DriverPitStats
  {
    if s == [] then Unvisited(id)
    else
      var t := Tally(id, s[..|s| - 1]);
      if s[|s| - 1].driverId == id then AddStop(t, s[|s| - 1]) else t
  }

  lemma TallySnoc(id: string, s: seq<PitStop>, p: PitStop)
    ensures Tally(id, s + [p]) == if p.driverId == id then AddStop(Tally(id, s), p) else Tally(id, s)
  {
    assert (s + [p])[..|s|] == s;
  }

  lemma {:induction false} TallyAbsent(id: string, s: seq<PitStop>)
    requires forall j :: 0 <= j < |s| ==> s[j].driverId != id
    ensures Tally(id, s) == Unvisited(id)
  {
    if s != [] {
      TallyAbsent(id, s[..|s| - 1]);
    }
  }

  /**
   * A driver's record lists exactly that driver's stops in input order,
   * counts them, and totals their durations.
   */
  lemma {:induction false} TallyShape(id: string, s: seq<PitStop>)
    ensures var t := Tally(id, s);
      && t.driverId == id && t.driverName == id && t.nationality == ""
      && t.stops == Filter(s, HasKey(DriverOf, id))
      && t.totalStops == |t.stops|
      && t.totalTime == SumBy(t.stops, DurationOf)
      && t.averageDuration == 0.0
  {
    if s != [] {
      var init, p := s[..|s| - 1], s[|s| - 1];
      TallyShape(id, init);
      var t := Tally(id, init);
      assert s == init + [p];
      FilterSnoc(init, p, HasKey(DriverOf, id));
      if p.driverId == id {
        assert (t.stops + [p])[..|t.stops|] == t.stops;
      }
    }
  }

  /**
   * `fastestStop` is the least of the record's durations and is one of
   * them; `slowestStop` bounds them all from above and never drops below
   * the seed 0, so it is the greatest duration once durations are
   * non-negative.
   */
  ghost predicate Extremes(t: DriverPitStats)
  {
    t.stops != [] ==>
      && (forall j :: 0 <= j < |t.stops| ==> t.fastestStop <= t.stops[j].duration <= t.slowestStop)
      && (exists j :: 0 <= j < |t.stops| && t.stops[j].duration == t.fastestStop)
      && 0.0 <= t.slowestStop
      && ((forall j :: 0 <= j < |t.stops| ==> 0.0 <= t.stops[j].duration) ==>
            exists j :: 0 <= j < |t.stops| && t.stops[j].duration == t.slowestStop)
  }

  lemma AddStopExtremes(t: DriverPitStats, p: PitStop)
    requires t.totalStops == |t.stops| && 0.0 <= t.slowestStop && Extremes(t)
    requires t.stops == [] ==> t.slowestStop == 0.0
    ensures Extremes(AddStop(t, p))
  {
    var u := AddStop(t, p);
    assert u.stops == t.stops + [p];
    assert u.stops[|t.stops|] == p;
    if t.stops != [] {
      assert forall j :: 0 <= j < |t.stops| ==> u.stops[j] == t.stops[j];
      if u.fastestStop == t.fastestStop {
        var k :| 0 <= k < |t.stops| && t.stops[k].duration == t.fastestStop;
        assert u.stops[k].duration == u.fastestStop;
      }
      if u.slowestStop == t.slowestStop && (forall j :: 0 <= j < |u.stops| ==> 0.0 <= u.stops[j].duration) {
        assert forall j :: 0 <= j < |t.stops| ==> 0.0 <= t.stops[j].duration by {
          forall j | 0 <= j < |t.stops|
            ensures 0.0 <= t.stops[j].duration
          {
            assert u.stops[j] == t.stops[j];
          }
        }
        var k :| 0 <= k < |t.stops| && t.stops[k].duration == t.slowestStop;
        assert u.stops[k].duration == u.slowestStop;
      }
    }
  }

  lemma {:induction false} TallyExtremes(id: string, s: seq<PitStop>)
    ensures 0.0 <= Tally(id, s).slowestStop && Extremes(Tally(id, s))
    ensures Tally(id, s).stops == [] ==> Tally(id, s).slowestStop == 0.0
  {
    if s != [] {
      var init, p := s[..|s| - 1], s[|s| - 1];
      TallyExtremes(id, init);
      TallyShape(id, init);
      if p.driverId == id {
        AddStopExtremes(Tally(id, init), p);
      }
    }
  }

  /** The averages pass: `stats.averageDuration = stats.totalTime / stats.totalStops`. */
  function WithAverage(t: DriverPitStats): (r: DriverPitStats)
    requires t.totalStops > 0
    ensures r.averageDuration * t.totalStops as real == t.totalTime
    ensures r.(averageDuration := t.averageDuration) == t
  {
    t.(averageDuration := t.totalTime / t.totalStops as real)
  }

  /** fastest ≤ average ≤ slowest for every driver with a stop. */
  lemma AverageWithinExtremes(id: string, s: seq<PitStop>)
    requires Tally(id, s).totalStops > 0
    ensures var t := Tally(id, s);
      t.fastestStop <= WithAverage(t).averageDuration <= t.slowestStop
  {
    TallyShape(id, s);
    TallyExtremes(id, s);
    MeanWithinExtremes(Tally(id, s));
  }

  lemma MeanWithinExtremes(t: DriverPitStats)
    requires 0 < t.totalStops == |t.stops|
    requires forall j :: 0 <= j < |t.stops| ==> t.fastestStop <= DurationOf(t.stops[j]) <= t.slowestStop
    requires t.totalTime == SumBy(t.stops, DurationOf)
    ensures t.fastestStop <= WithAverage(t).averageDuration <= t.slowestStop
  {
    MeanBetween(t.stops, DurationOf, t.fastestStop, t.slowestStop);
  }

  // ---------------------------------------------------------------------
  // The `forEach` loop

  function Lists(stats: map<string, DriverPitStats>): map<string, seq<PitStop>>
  {
    map id | id in stats :: stats[id].stops
  }

  /** `stats` and `keys` are what the `forEach` has built after visiting `seen`. */
  ghost predicate Tallied(stats: map<string, DriverPitStats>, keys: seq<string>, seen: seq<PitStop>)
  {
    && Grouping(Lists(stats), keys, seen, DriverOf)
    && (forall id :: id in stats ==> stats[id] == Tally(id, seen))
  }

  lemma TalliedNewDriver(stats: map<string, DriverPitStats>, keys: seq<string>, seen: seq<PitStop>, p: PitStop)
    requires Tallied(stats, keys, seen) && p.driverId !in stats
    ensures Tallied(stats[p.driverId := AddStop(Unvisited(p.driverId), p)], keys + [p.driverId], seen + [p])
  {
    var id := p.driverId;
    var e := AddStop(Unvisited(id), p);
    assert DriverOf(p) == id && e.stops == [p];
    GroupingNewKey(Lists(stats), keys, seen, DriverOf, p);
    ListsUpdate(stats, id, e);
    assert Grouping(Lists(stats[id := e]), keys + [id], seen + [p], DriverOf);
    TallyAbsent(id, seen);
    TalliesSnoc(stats, seen, p, e);
  }

  lemma TalliedKnownDriver(stats: map<string, DriverPitStats>, keys: seq<string>, seen: seq<PitStop>, p: PitStop)
    requires Tallied(stats, keys, seen) && p.driverId in stats
    ensures Tallied(stats[p.driverId := AddStop(stats[p.driverId], p)], keys, seen + [p])
  {
    var id := p.driverId;
    GroupingExistingKey(Lists(stats), keys, seen, DriverOf, p);
    ListsUpdate(stats, id, AddStop(stats[id], p));
    TalliesSnoc(stats, seen, p, AddStop(stats[id], p));
  }

  /** One step of the `forEach`, whichever branch created or found the driver's record. */
  lemma TalliedStep(stats: map<string, DriverPitStats>, keys: seq<string>, seen: seq<PitStop>, p: PitStop,
                    entry: DriverPitStats, keys': seq<string>)
    requires Tallied(stats, keys, seen)
    requires p.driverId !in stats ==> entry == Unvisited(p.driverId) && keys' == keys + [p.driverId]
    requires p.driverId in stats ==> entry == stats[p.driverId] && keys' == keys
    ensures Tallied(stats[p.driverId := AddStop(entry, p)], keys', seen + [p])
  {
    if p.driverId !in stats {
      TalliedNewDriver(stats, keys, seen, p);
    } else {
      TalliedKnownDriver(stats, keys, seen, p);
    }
  }

  lemma ListsUpdate(stats: map<string, DriverPitStats>, id: string, e: DriverPitStats)
    ensures Lists(stats[id := e]) == Lists(stats)[id := e.stops]
  {
  }

  /** Visiting one more stop moves every record, and only its driver's changes. */
  lemma TalliesSnoc(stats: map<string, DriverPitStats>, seen: seq<PitStop>, p: PitStop, e: DriverPitStats)
    requires forall id :: id in stats ==> stats[id] == Tally(id, seen)
    requires e == AddStop(Tally(p.driverId, seen), p)
    ensures forall id :: id in stats[p.driverId := e] ==> stats[p.driverId := e][id] == Tally(id, seen + [p])
  {
    forall id | id in stats[p.driverId := e]
      ensures stats[p.driverId := e][id] == Tally(id, seen + [p])
    {
      TallySnoc(id, seen, p);
    }
  }

  /** The `forEach` over `allStops` that fills the `driverStats` record; `keys` is its key order. */
  method TallyStops(allStops: seq<PitStop>) returns (stats: map<string, DriverPitStats>, keys: seq<string>)
    ensures Tallied(stats, keys, allStops)
  {
    stats := map[];
    keys := [];
    ghost var seen: seq<PitStop> := [];
    var i := 0;
    while i < |allStops|
      invariant 0 <= i <= |allStops|
      invariant seen == allStops[..i]
      invariant Tallied(stats, keys, seen)
    {
      var p := allStops[i];
      PrefixSnoc(allStops, i);
      var entry: DriverPitStats, keys': seq<string>;
      if p.driverId !in stats {
        entry, keys' := Unvisited(p.driverId), keys + [p.driverId];
      } else {
        entry, keys' := stats[p.driverId], keys;
      }
      TalliedStep(stats, keys, seen, p, entry, keys');
      stats, keys := stats[p.driverId := AddStop(entry, p)], keys';
      seen := seen + [p];
      i := i + 1;
    }
    assert allStops[..i] == allStops;
  }

  // ---------------------------------------------------------------------
  // The ranking

  /**
   * `driverStats` of the analytics: one record per distinct driver of
   * `stops`, each that driver's tally with its average, ascending by
   * average.
   */
  ghost predicate IsRanking(ranked: seq<DriverPitStats>, stops: seq<PitStop>)
  {
    && SortedBy(ranked, AverageOf)
    && (forall j :: 0 <= j < |ranked| ==>
          Tally(ranked[j].driverId, stops).totalStops > 0 && ranked[j] == WithAverage(Tally(ranked[j].driverId, stops)))
    && (forall j, k :: 0 <= j < k < |ranked| ==> ranked[j].driverId != ranked[k].driverId)
    && (forall j :: 0 <= j < |stops| ==> exists k :: 0 <= k < |ranked| && ranked[k].driverId == stops[j].driverId)
  }

  /** `Object.values(driverStats)` after the averages pass, in key order. */
  ghost predicate AveragedInKeyOrder(entries: seq<DriverPitStats>, stats: map<string, DriverPitStats>, keys: seq<string>)
  {
    && |entries| == |keys|
    && (forall q :: 0 <= q < |keys| ==> keys[q] in stats && stats[keys[q]].totalStops > 0)
    && (forall q :: 0 <= q < |keys| ==> entries[q] == WithAverage(stats[keys[q]]))
  }

  lemma {:induction false} EntriesCountSum(entries: seq<DriverPitStats>, stats: map<string, DriverPitStats>, keys: seq<string>)
    requires AveragedInKeyOrder(entries, stats, keys)
    requires forall id :: id in stats ==> stats[id].totalStops == |stats[id].stops|
    ensures SumInt(entries, StopsOf) == SizeSum(Lists(stats), keys)
  {
    if keys != [] {
      var n := |keys| - 1;
      assert AveragedInKeyOrder(entries[..n], stats, keys[..n]);
      EntriesCountSum(entries[..n], stats, keys[..n]);
    }
  }

  lemma RankingOfEntries(ranked: seq<DriverPitStats>, entries: seq<DriverPitStats>,
                         stats: map<string, DriverPitStats>, keys: seq<string>, stops: seq<PitStop>)
    requires Tallied(stats, keys, stops)
    requires AveragedInKeyOrder(entries, stats, keys)
    requires SortedBy(ranked, AverageOf) && multiset(ranked) == multiset(entries)
    ensures IsRanking(ranked, stops)
    ensures SumInt(ranked, StopsOf) == |stops|
  {
    forall q | 0 <= q < |keys|
      ensures entries[q].driverId == keys[q]
    {
      TallyShape(keys[q], stops);
    }
    forall j | 0 <= j < |ranked|
      ensures Tally(ranked[j].driverId, stops).totalStops > 0
      ensures ranked[j] == WithAverage(Tally(ranked[j].driverId, stops))
    {
      assert ranked[j] in multiset(entries);
      var q :| 0 <= q < |entries| && entries[q] == ranked[j];
    }
    assert Distinct(entries);
    PermutationDistinct(ranked, entries);
    forall j | 0 <= j < |stops|
      ensures exists k :: 0 <= k < |ranked| && ranked[k].driverId == stops[j].driverId
    {
      var id := stops[j].driverId;
      assert id in Lists(stats);
      var q :| 0 <= q < |keys| && keys[q] == id;
      assert entries[q] in multiset(ranked);
    }
    forall id | id in stats
      ensures stats[id].totalStops == |stats[id].stops|
    {
      TallyShape(id, stops);
    }
    EntriesCountSum(entries, stats, keys);
    SumIntPermutation(ranked, entries, StopsOf);
  }

  /**
   * The averages pass over `Object.values(driverStats)`, then the sort
   * ascending by `averageDuration`.
   */
  method RankDrivers(stats: map<string, DriverPitStats>, keys: seq<string>, allStops: seq<PitStop>)
    returns (sortedDrivers: seq<DriverPitStats>)
    requires Tallied(stats, keys, allStops)
    ensures IsRanking(sortedDrivers, allStops)
    ensures SumInt(sortedDrivers, StopsOf) == |allStops|
  {
    TalliedKeys(stats, keys, allStops);
    var values := AverageAll(stats, keys);
    ghost var entries := values[..];
    SortInPlace(values, AverageOf);
    sortedDrivers := values[..];
    RankingOfEntries(sortedDrivers, entries, stats, keys, allStops);
  }

  lemma TalliedKeys(stats: map<string, DriverPitStats>, keys: seq<string>, allStops: seq<PitStop>)
    requires Tallied(stats, keys, allStops)
    ensures forall k :: k in keys ==> k in stats && stats[k].totalStops > 0
  {
    forall k | k in keys
      ensures k in stats && stats[k].totalStops > 0
    {
      assert k in Lists(stats);
      TallyShape(k, allStops);
    }
  }

  /** The averages pass over `Object.values(driverStats)`, in key order. */
  method AverageAll(stats: map<string, DriverPitStats>, keys: seq<string>) returns (values: array<DriverPitStats>)
    requires forall k :: k in keys ==> k in stats && stats[k].totalStops > 0
    ensures fresh(values)
    ensures AveragedInKeyOrder(values[..], stats, keys)
  {
    values := new DriverPitStats[|keys|];
    var q := 0;
    while q < |keys|
      invariant 0 <= q <= |keys|
      invariant forall m :: 0 <= m < q ==> values[m] == WithAverage(stats[keys[m]])
    {
      values[q] := WithAverage(stats[keys[q]]);
      q := q + 1;
    }
  }

  // ---------------------------------------------------------------------
  // The overall fastest stop and mean

  /** `stops[k]` is the earliest stop of minimal duration. */
  ghost predicate EarliestFastest(stops: seq<PitStop>, k: int)
  {
    && 0 <= k < |stops|
    && (forall j :: 0 <= j < |stops| ==> stops[k].duration <= stops[j].duration)
    && (forall j :: 0 <= j < k ==> stops[k].duration < stops[j].duration)
  }

  /**
   * `allStops.reduce((fastest, stop) => stop < fastest ? stop : fastest)`
   * with no seed: the first stop starts, and a later stop replaces it only
   * when strictly faster.
   */
  method FastestStop(allStops: seq<PitStop>) returns (k: int)
    requires allStops != []
    ensures EarliestFastest(allStops, k)
  {
    k := 0;
    var i := 1;
    while i < |allStops|
      invariant 1 <= i <= |allStops| && 0 <= k < i
      invariant forall j :: 0 <= j < i ==> allStops[k].duration <= allStops[j].duration
      invariant forall j :: 0 <= j < k ==> allStops[k].duration < allStops[j].duration
    {
      if allStops[i].duration < allStops[k].duration {
        k := i;
      }
      i := i + 1;
    }
  }

  /** Two stops that both qualify are the same index: the choice is determined. */
  lemma EarliestFastestUnique(stops: seq<PitStop>, k: int, k': int)
    requires EarliestFastest(stops, k) && EarliestFastest(stops, k')
    ensures k == k'
  {
    assert stops[k].duration == stops[k'].duration;
  }

  /** `allStops.reduce((sum, stop) => sum + duration, 0)`. */
  method TotalDuration(allStops: seq<PitStop>) returns (sum: real)
    ensures sum == SumBy(allStops, DurationOf)
  {
    sum := 0.0;
    var i := 0;
    while i < |allStops|
      invariant 0 <= i <= |allStops|
      invariant sum == SumBy(allStops[..i], DurationOf)
    {
      assert allStops[..i + 1][..i] == allStops[..i];
      sum := sum + allStops[i].duration;
      i := i + 1;
    }
    assert allStops[..i] == allStops;
  }

  // ---------------------------------------------------------------------
  // The analytics memo

  /** What the analytics promise about the stops they summarise. */
  ghost predicate Summarises(a: PitAnalytics, stops: seq<PitStop>)
  {
    && stops != []
    && a.allStops == stops
    && a.totalStops == |stops|
    && a.averageStopTime == SumBy(stops, DurationOf) / |stops| as real
    && (exists k :: EarliestFastest(stops, k) && a.fastestStop == stops[k])
    && IsRanking(a.driverStats, stops)
    && SumInt(a.driverStats, StopsOf) == |stops|
  }

  /**
   * The `analytics` memo: null when the fetched list is null or empty,
   * otherwise the tally, the averages pass, the ranking sort, the
   * fastest stop and the mean.
   */
  method Analyse(pitStopData: Option<seq<PitStop>>) returns (analytics: Option<PitAnalytics>)
    ensures analytics.None? <==> (pitStopData.None? || pitStopData.value == [])
    ensures analytics.Some? ==> Summarises(analytics.value, pitStopData.value)
  {
    if pitStopData.None? || pitStopData.value == [] {
      return None;
    }
    var allStops := pitStopData.value;
    var stats, keys := TallyStops(allStops);
    var sortedDrivers := RankDrivers(stats, keys, allStops);
    var k := FastestStop(allStops);
    var sum := TotalDuration(allStops);
    analytics := Some(PitAnalytics(allStops, sortedDrivers, allStops[k], |allStops|, sum / |allStops| as real));
  }

  /**
   * The timeline: `analytics.allStops.sort((a, b) => parseInt(a.lap) -
   * parseInt(b.lap))`, which sorts the fetched array itself.
   */
  method SortTimeline(allStops: array<PitStop>)
    modifies allStops
    ensures SortedBy(allStops[..], LapOf)
    ensures multiset(allStops[..]) == multiset(old(allStops[..]))
  {
    SortInPlace(allStops, LapOf);
  }

  /** Three stops of two drivers: HAM 2.3 s and 3.1 s, VER 2.0 s. */
  lemma TwoDriverExample()
    ensures var ham1 := PitStop("hamilton", 12, 1, "14:05:00", 2.3);
            var ver := PitStop("max_verstappen", 14, 1, "14:08:00", 2.0);
            var ham2 := PitStop("hamilton", 30, 2, "14:35:00", 3.1);
            var s := [ham1, ver, ham2];
            && Tally("hamilton", s).stops == [ham1, ham2]
            && Tally("hamilton", s).fastestStop == 2.3
            && Tally("hamilton", s).slowestStop == 3.1
            && WithAverage(Tally("hamilton", s)).averageDuration == 2.7
            && EarliestFastest(s, 1)
  {
    var ham1 := PitStop("hamilton", 12, 1, "14:05:00", 2.3);
    var ver := PitStop("max_verstappen", 14, 1, "14:08:00", 2.0);
    var ham2 := PitStop("hamilton", 30, 2, "14:35:00", 3.1);
    var s := [ham1, ver, ham2];
    assert s == [ham1, ver] + [ham2] && [ham1, ver] == [ham1] + [ver] && [ham1] == [] + [ham1];
    TallySnoc("hamilton", [], ham1);
    TallySnoc("hamilton", [ham1], ver);
    TallySnoc("hamilton", [ham1, ver], ham2);
  }
}
