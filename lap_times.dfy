/**
 * The lap-times page: the per-driver analysis built by nested `forEach`
 * loops over laps and their timings, the averages pass, the ranking by
 * fastest lap, the overall fastest and mean lap, and the gap-to-fastest
 * rows of one lap.
 *
 * `sec` is the number of seconds the page reads from a timing,
 * `parseTimeToMs(timing.time) / 1000` (see `LapTimeFormat.ParseTimeToMs`).
 */
module LapTimes {
  import opened Wrappers
  import opened Seqs
  import opened Sorting
  import opened Domain
  import opened GroupBy

  /** `DriverLapAnalysis` without the standard deviation. */
  datatype DriverLapAnalysis = DriverLapAnalysis(
    driverId: string,
    driverName: string,
    nationality: string,
    laps: seq<Timing>,
    totalLaps: nat,
    averageLapTime: real,
    fastestLap: real,
    slowestLap: real,
    lapTimesSeconds: seq<real>)

  /**
   * The analytics record. `overallFastest` is `None` where the page gets
   * `Math.min()` of no arguments (Infinity), and `overallAverage` is `None`
   * where it divides 0 by 0 (NaN); both happen when no lap has a timing.
   */
  datatype LapAnalytics = LapAnalytics(
    allLaps: seq<Lap>,
    driverStats: seq<DriverLapAnalysis>,
    totalLaps: int,
    overallFastest: Option<real>,
    overallAverage: Option<real>,
    totalDrivers: nat)

  function DriverOf(t: Timing): string { t.driverId }
  function FastestOf(d: DriverLapAnalysis): real { d.fastestLap }
  function LapsOf(d: DriverLapAnalysis): int { d.totalLaps }
  function Id(x: real): real { x }

  // ---------------------------------------------------------------------
  // Laps and timings

  /** `totalLaps = Math.max(totalLaps, parseInt(lap.number))` over the laps, from 0. */
  function MaxLapNumber(laps: seq<Lap>): int
  {
    if laps == [] then 0
    else
      var m := MaxLapNumber(laps[..|laps| - 1]);
      var n := laps[|laps| - 1].number;
      if n > m then n else m
  }

  /** `totalLaps` is the largest lap number present (0 when none is positive). */
  lemma {:induction false} MaxLapNumberSpec(laps: seq<Lap>)
    ensures var r := MaxLapNumber(laps);
      && 0 <= r
      && (forall j :: 0 <= j < |laps| ==> laps[j].number <= r)
      && (r == 0 || exists j :: 0 <= j < |laps| && laps[j].number == r)
  {
    if laps != [] {
      var init := laps[..|laps| - 1];
      MaxLapNumberSpec(init);
      assert forall j :: 0 <= j < |init| ==> laps[j] == init[j];
      var m := MaxLapNumber(init);
      if m != 0 && laps[|laps| - 1].number <= m {
        var j :| 0 <= j < |init| && init[j].number == m;
        assert laps[j].number == m;
      }
    }
  }

  /** The timings of all laps, lap by lap, in the order the nested loops visit them. */
  function AllTimings(laps: seq<Lap>): seq<Timing>
  {
    if laps == [] then [] else AllTimings(laps[..|laps| - 1]) + laps[|laps| - 1].timings
  }

  lemma AllTimingsSnoc(laps: seq<Lap>, lap: Lap)
    ensures AllTimings(laps + [lap]) == AllTimings(laps) + lap.timings
  {
    assert (laps + [lap])[..|laps|] == laps;
  }

  // ---------------------------------------------------------------------
  // The per-driver analysis

  /**
   * The record the page creates the first time a driver is met. Its
   * `fastestLap` is `Infinity` in the page; here that is represented by
   * `totalLaps == 0`, which `AddLap` reads as "no lap to compare with".
   */
  function Unvisited(id: string): DriverLapAnalysis
  {
    DriverLapAnalysis(id, id, "", [], 0, 0.0, 0.0, 0.0, [])
  }

  /** The inner `forEach` body: push the timing and its seconds, count, `Math.min`, `Math.max`. */
  function AddLap(t: DriverLapAnalysis, timing: Timing, x: real): DriverLapAnalysis
  {
    t.(laps := t.laps + [timing],
       lapTimesSeconds := t.lapTimesSeconds + [x],
       totalLaps := t.totalLaps + 1,
       fastestLap := if t.totalLaps == 0 || x < t.fastestLap then x else t.fastestLap,
       slowestLap := if x > t.slowestLap then x else t.slowestLap)
  }

  /** Driver `id`'s record after the loops have visited the timings `s`. */
  function Tally(id: string, s: seq<Timing>, sec: Timing -> real): DriverLapAnalysis
  {
    if s == [] then Unvisited(id)
    else
      var t := Tally(id, s[..|s| - 1], sec);
      if s[|s| - 1].driverId == id then AddLap(t, s[|s| - 1], sec(s[|s| - 1])) else t
  }

  lemma TallySnoc(id: string, s: seq<Timing>, x: Timing, sec: Timing -> real)
    ensures Tally(id, s + [x], sec) == if x.driverId == id then AddLap(Tally(id, s, sec), x, sec(x)) else Tally(id, s, sec)
  {
    assert (s + [x])[..|s|] == s;
  }

  lemma {:induction false} TallyAbsent(id: string, s: seq<Timing>, sec: Timing -> real)
    requires forall j :: 0 <= j < |s| ==> s[j].driverId != id
    ensures Tally(id, s, sec) == Unvisited(id)
  {
    if s != [] {
      TallyAbsent(id, s[..|s| - 1], sec);
    }
  }

  /**
   * A driver's record lists that driver's timings in visiting order,
   * counts them, and holds their seconds in the same order.
   */
  lemma {:induction false} TallyShape(id: string, s: seq<Timing>, sec: Timing -> real)
    ensures var t := Tally(id, s, sec);
      && t.driverId == id && t.driverName == id && t.nationality == ""
      && t.laps == Filter(s, HasKey(DriverOf, id))
      && t.totalLaps == |t.laps| == |t.lapTimesSeconds|
      && (forall j :: 0 <= j < |t.laps| ==> t.lapTimesSeconds[j] == sec(t.laps[j]))
      && SumBy(t.lapTimesSeconds, Id) == SumBy(t.laps, sec)
      && t.averageLapTime == 0.0
  {
    if s != [] {
      var init, x := s[..|s| - 1], s[|s| - 1];
      TallyShape(id, init, sec);
      var t := Tally(id, init, sec);
      assert s == init + [x];
      TallySnoc(id, init, x, sec);
      FilterSnoc(init, x, HasKey(DriverOf, id));
      if x.driverId == id {
        var u := AddLap(t, x, sec(x));
        assert u.laps == t.laps + [x] && u.lapTimesSeconds == t.lapTimesSeconds + [sec(x)];
        forall j | 0 <= j < |u.laps|
          ensures u.lapTimesSeconds[j] == sec(u.laps[j])
        {
          if j < |t.laps| {
            assert u.laps[j] == t.laps[j] && u.lapTimesSeconds[j] == t.lapTimesSeconds[j];
          }
        }
        SumBySnoc(t.lapTimesSeconds, sec(x), Id);
        SumBySnoc(t.laps, x, sec);
      }
    }
  }

  /**
   * `fastestLap` is the least of the record's lap times and is one of
   * them; `slowestLap` bounds them from above and never drops below the
   * seed 0, so it is the greatest time once times are non-negative.
   */
  ghost predicate Extremes(t: DriverLapAnalysis)
  {
    var xs := t.lapTimesSeconds;
    xs != [] ==>
      && (forall j :: 0 <= j < |xs| ==> t.fastestLap <= xs[j] <= t.slowestLap)
      && (exists j :: 0 <= j < |xs| && xs[j] == t.fastestLap)
      && 0.0 <= t.slowestLap
      && ((forall j :: 0 <= j < |xs| ==> 0.0 <= xs[j]) ==> exists j :: 0 <= j < |xs| && xs[j] == t.slowestLap)
  }

  lemma AddLapExtremes(t: DriverLapAnalysis, timing: Timing, x: real)
    requires t.totalLaps == |t.lapTimesSeconds| && 0.0 <= t.slowestLap && Extremes(t)
    requires t.lapTimesSeconds == [] ==> t.slowestLap == 0.0
    ensures Extremes(AddLap(t, timing, x))
  {
    var u := AddLap(t, timing, x);
    var xs, ys := t.lapTimesSeconds, u.lapTimesSeconds;
    assert ys == xs + [x];
    assert ys[|xs|] == x;
    if xs != [] {
      assert forall j :: 0 <= j < |xs| ==> ys[j] == xs[j];
      if u.fastestLap == t.fastestLap {
        var k :| 0 <= k < |xs| && xs[k] == t.fastestLap;
        assert ys[k] == u.fastestLap;
      }
      if u.slowestLap == t.slowestLap && (forall j :: 0 <= j < |ys| ==> 0.0 <= ys[j]) {
        assert forall j :: 0 <= j < |xs| ==> 0.0 <= xs[j] by {
          forall j | 0 <= j < |xs|
            ensures 0.0 <= xs[j]
          {
            assert ys[j] == xs[j];
          }
        }
        var k :| 0 <= k < |xs| && xs[k] == t.slowestLap;
        assert ys[k] == u.slowestLap;
      }
    }
  }

  lemma {:induction false} TallyExtremes(id: string, s: seq<Timing>, sec: Timing -> real)
    ensures 0.0 <= Tally(id, s, sec).slowestLap && Extremes(Tally(id, s, sec))
    ensures Tally(id, s, sec).lapTimesSeconds == [] ==> Tally(id, s, sec).slowestLap == 0.0
  {
    if s != [] {
      var init, x := s[..|s| - 1], s[|s| - 1];
      TallyExtremes(id, init, sec);
      TallyShape(id, init, sec);
      if x.driverId == id {
        AddLapExtremes(Tally(id, init, sec), x, sec(x));
      }
    }
  }

  /** The averages pass: the sum of the lap times over the lap count. */
  function WithAverage(t: DriverLapAnalysis): (r: DriverLapAnalysis)
    requires t.totalLaps > 0
    ensures r.averageLapTime * t.totalLaps as real == SumBy(t.lapTimesSeconds, Id)
    ensures r.(averageLapTime := t.averageLapTime) == t
  {
    t.(averageLapTime := SumBy(t.lapTimesSeconds, Id) / t.totalLaps as real)
  }

  /** fastest ≤ average ≤ slowest for every driver with a lap. */
  lemma AverageWithinExtremes(id: string, s: seq<Timing>, sec: Timing -> real)
    requires Tally(id, s, sec).totalLaps > 0
    ensures var t := Tally(id, s, sec);
      t.fastestLap <= WithAverage(t).averageLapTime <= t.slowestLap
  {
    TallyShape(id, s, sec);
    TallyExtremes(id, s, sec);
    var t := Tally(id, s, sec);
    assert forall j :: 0 <= j < |t.lapTimesSeconds| ==> t.fastestLap <= Id(t.lapTimesSeconds[j]) <= t.slowestLap;
    MeanBetween(t.lapTimesSeconds, Id, t.fastestLap, t.slowestLap);
  }

  // ---------------------------------------------------------------------
  // The nested `forEach` loops

  function Lists(stats: map<string, DriverLapAnalysis>): map<string, seq<Timing>>
  {
    map id | id in stats :: stats[id].laps
  }

  /**
   * `stats` and `keys` are what the loops have built after visiting the
   * timings `seen`, and the drivers' lap times add up to those of `seen`.
   */
  ghost predicate Tallied(stats: map<string, DriverLapAnalysis>, keys: seq<string>, seen: seq<Timing>, sec: Timing -> real)
  {
    && Grouping(Lists(stats), keys, seen, DriverOf)
    && (forall id :: id in stats ==> stats[id] == Tally(id, seen, sec))
    && GroupSum(Lists(stats), keys, sec) == SumBy(seen, sec)
  }

  lemma TalliedNewDriver(stats: map<string, DriverLapAnalysis>, keys: seq<string>, seen: seq<Timing>, sec: Timing -> real, x: Timing)
    requires Tallied(stats, keys, seen, sec) && x.driverId !in stats
    ensures Tallied(stats[x.driverId := AddLap(Unvisited(x.driverId), x, sec(x))], keys + [x.driverId], seen + [x], sec)
  {
    var id := x.driverId;
    var e := AddLap(Unvisited(id), x, sec(x));
    assert DriverOf(x) == id && e.laps == [x];
    GroupingNewKey(Lists(stats), keys, seen, DriverOf, x);
    ListsUpdate(stats, id, e);
    assert Grouping(Lists(stats[id := e]), keys + [id], seen + [x], DriverOf);
    TallyAbsent(id, seen, sec);
    TalliesSnoc(stats, seen, sec, x, e);
    assert id !in keys;
    GroupSumNewKey(Lists(stats), keys, sec, id, [x]);
    SumBySnoc([], x, sec);
    SumBySnoc(seen, x, sec);
  }

  lemma TalliedKnownDriver(stats: map<string, DriverLapAnalysis>, keys: seq<string>, seen: seq<Timing>, sec: Timing -> real, x: Timing)
    requires Tallied(stats, keys, seen, sec) && x.driverId in stats
    ensures Tallied(stats[x.driverId := AddLap(stats[x.driverId], x, sec(x))], keys, seen + [x], sec)
  {
    var id := x.driverId;
    var e := AddLap(stats[id], x, sec(x));
    assert DriverOf(x) == id && id in Lists(stats) && e.laps == Lists(stats)[id] + [x];
    GroupingExistingKey(Lists(stats), keys, seen, DriverOf, x);
    ListsUpdate(stats, id, e);
    assert Grouping(Lists(stats[id := e]), keys, seen + [x], DriverOf);
    TalliesSnoc(stats, seen, sec, x, e);
    GroupSumAppend(Lists(stats), keys, sec, id, x, SumBy(seen, sec));
    SumBySnoc(seen, x, sec);
    assert GroupSum(Lists(stats[id := e]), keys, sec) == SumBy(seen + [x], sec);
  }

  /** One step of the inner `forEach`, whichever branch created or found the driver's record. */
  lemma TalliedStep(stats: map<string, DriverLapAnalysis>, keys: seq<string>, seen: seq<Timing>, sec: Timing -> real,
                    x: Timing, entry: DriverLapAnalysis, keys': seq<string>)
    requires Tallied(stats, keys, seen, sec)
    requires x.driverId !in stats ==> entry == Unvisited(x.driverId) && keys' == keys + [x.driverId]
    requires x.driverId in stats ==> entry == stats[x.driverId] && keys' == keys
    ensures Tallied(stats[x.driverId := AddLap(entry, x, sec(x))], keys', seen + [x], sec)
  {
    if x.driverId !in stats {
      TalliedNewDriver(stats, keys, seen, sec, x);
    } else {
      TalliedKnownDriver(stats, keys, seen, sec, x);
    }
  }

  lemma ListsUpdate(stats: map<string, DriverLapAnalysis>, id: string, e: DriverLapAnalysis)
    ensures Lists(stats[id := e]) == Lists(stats)[id := e.laps]
  {
  }

  /** Visiting one more timing moves every record, and only its driver's changes. */
  lemma TalliesSnoc(stats: map<string, DriverLapAnalysis>, seen: seq<Timing>, sec: Timing -> real, x: Timing, e: DriverLapAnalysis)
    requires forall id :: id in stats ==> stats[id] == Tally(id, seen, sec)
    requires e == AddLap(Tally(x.driverId, seen, sec), x, sec(x))
    ensures forall id :: id in stats[x.driverId := e] ==> stats[x.driverId := e][id] == Tally(id, seen + [x], sec)
  {
    forall id | id in stats[x.driverId := e]
      ensures stats[x.driverId := e][id] == Tally(id, seen + [x], sec)
    {
      TallySnoc(id, seen, x, sec);
    }
  }

  /** The inner `forEach`: each timing of one lap updates its driver's record. */
  method TallyLap(stats0: map<string, DriverLapAnalysis>, keys0: seq<string>, ghost before: seq<Timing>,
                  timings: seq<Timing>, sec: Timing -> real)
    returns (stats: map<string, DriverLapAnalysis>, keys: seq<string>)
    requires Tallied(stats0, keys0, before, sec)
    ensures Tallied(stats, keys, before + timings, sec)
  {
    stats, keys := stats0, keys0;
    ghost var seen := before;
    assert before + timings[..0] == before;
    var j := 0;
    while j < |timings|
      invariant 0 <= j <= |timings|
      invariant seen == before + timings[..j]
      invariant Tallied(stats, keys, seen, sec)
    {
      var x := timings[j];
      AppendPrefixSnoc(before, timings, j);
      var entry: DriverLapAnalysis, keys': seq<string>;
      if x.driverId !in stats {
        entry, keys' := Unvisited(x.driverId), keys + [x.driverId];
      } else {
        entry, keys' := stats[x.driverId], keys;
      }
      TalliedStep(stats, keys, seen, sec, x, entry, keys');
      stats, keys := stats[x.driverId := AddLap(entry, x, sec(x))], keys';
      seen := seen + [x];
      j := j + 1;
    }
    assert timings[..j] == timings;
  }

  /**
   * The outer `forEach`: for each lap, `totalLaps = Math.max(totalLaps,
   * number)`, then the lap's timings.
   */
  method TallyLaps(allLaps: seq<Lap>, sec: Timing -> real)
    returns (stats: map<string, DriverLapAnalysis>, keys: seq<string>, totalLaps: int)
    ensures Tallied(stats, keys, AllTimings(allLaps), sec)
    ensures totalLaps == MaxLapNumber(allLaps)
  {
    stats := map[];
    keys := [];
    totalLaps := 0;
    ghost var seen: seq<Timing> := [];
    var i := 0;
    while i < |allLaps|
      invariant 0 <= i <= |allLaps|
      invariant seen == AllTimings(allLaps[..i])
      invariant Tallied(stats, keys, seen, sec)
      invariant totalLaps == MaxLapNumber(allLaps[..i])
    {
      var lap := allLaps[i];
      PrefixSnoc(allLaps, i);
      AllTimingsSnoc(allLaps[..i], lap);
      assert allLaps[..i + 1][..i] == allLaps[..i];
      totalLaps := if lap.number > totalLaps then lap.number else totalLaps;
      stats, keys := TallyLap(stats, keys, seen, lap.timings, sec);
      seen := seen + lap.timings;
      i := i + 1;
    }
    assert allLaps[..i] == allLaps;
  }

  // ---------------------------------------------------------------------
  // The ranking and the overall figures

  /**
   * `driverStats` of the analytics: one record per distinct driver of
   * `timings`, each that driver's record with its average, ascending by
   * fastest lap.
   */
  ghost predicate IsRanking(ranked: seq<DriverLapAnalysis>, timings: seq<Timing>, sec: Timing -> real)
  {
    && SortedBy(ranked, FastestOf)
    && (forall j :: 0 <= j < |ranked| ==>
          Tally(ranked[j].driverId, timings, sec).totalLaps > 0 && ranked[j] == WithAverage(Tally(ranked[j].driverId, timings, sec)))
    && (forall j, k :: 0 <= j < k < |ranked| ==> ranked[j].driverId != ranked[k].driverId)
    && (forall j :: 0 <= j < |timings| ==> exists k :: 0 <= k < |ranked| && ranked[k].driverId == timings[j].driverId)
  }

  /** `Object.values(driverStats)` after the averages pass, in key order. */
  ghost predicate AveragedInKeyOrder(entries: seq<DriverLapAnalysis>, stats: map<string, DriverLapAnalysis>, keys: seq<string>)
  {
    && |entries| == |keys|
    && (forall q :: 0 <= q < |keys| ==> keys[q] in stats && stats[keys[q]].totalLaps > 0)
    && (forall q :: 0 <= q < |keys| ==> entries[q] == WithAverage(stats[keys[q]]))
  }

  /** `Object.values(driverStats).flatMap(d => d.lapTimesSeconds)` */
  function AllDriverLapTimes(entries: seq<DriverLapAnalysis>): seq<real>
  {
    if entries == [] then [] else AllDriverLapTimes(entries[..|entries| - 1]) + entries[|entries| - 1].lapTimesSeconds
  }

  /** Every lap time of a record in `entries` is in the flattened list, and conversely. */
  lemma {:induction false} AllDriverLapTimesMembers(entries: seq<DriverLapAnalysis>)
    ensures forall q, j :: 0 <= q < |entries| && 0 <= j < |entries[q].lapTimesSeconds| ==>
      entries[q].lapTimesSeconds[j] in AllDriverLapTimes(entries)
    ensures forall x :: x in AllDriverLapTimes(entries) ==>
      exists q, j :: 0 <= q < |entries| && 0 <= j < |entries[q].lapTimesSeconds| && entries[q].lapTimesSeconds[j] == x
  {
    if entries != [] {
      var init := entries[..|entries| - 1];
      AllDriverLapTimesMembers(init);
      var last := entries[|entries| - 1];
      assert AllDriverLapTimes(entries) == AllDriverLapTimes(init) + last.lapTimesSeconds;
      forall x | x in AllDriverLapTimes(entries)
        ensures exists q, j :: 0 <= q < |entries| && 0 <= j < |entries[q].lapTimesSeconds| && entries[q].lapTimesSeconds[j] == x
      {
        if x in AllDriverLapTimes(init) {
          var q, j :| 0 <= q < |init| && 0 <= j < |init[q].lapTimesSeconds| && init[q].lapTimesSeconds[j] == x;
          assert entries[q] == init[q];
        } else {
          var j :| 0 <= j < |last.lapTimesSeconds| && last.lapTimesSeconds[j] == x;
          assert entries[|entries| - 1].lapTimesSeconds[j] == x;
        }
      }
    }
  }

  /** In key order, the flattened lap times have as many terms, and the same total, as the timings. */
  lemma {:induction false} AllDriverLapTimesTotals(entries: seq<DriverLapAnalysis>, stats: map<string, DriverLapAnalysis>,
                                                   keys: seq<string>, seen: seq<Timing>, sec: Timing -> real)
    requires AveragedInKeyOrder(entries, stats, keys)
    requires forall id :: id in stats ==> stats[id] == Tally(id, seen, sec)
    ensures |AllDriverLapTimes(entries)| == SizeSum(Lists(stats), keys)
    ensures SumBy(AllDriverLapTimes(entries), Id) == GroupSum(Lists(stats), keys, sec)
    ensures SumInt(entries, LapsOf) == SizeSum(Lists(stats), keys)
  {
    if keys != [] {
      var n := |keys| - 1;
      assert AveragedInKeyOrder(entries[..n], stats, keys[..n]);
      AllDriverLapTimesTotals(entries[..n], stats, keys[..n], seen, sec);
      var e := entries[n];
      TallyShape(keys[n], seen, sec);
      assert AllDriverLapTimes(entries) == AllDriverLapTimes(entries[..n]) + e.lapTimesSeconds;
      SumByConcat(AllDriverLapTimes(entries[..n]), e.lapTimesSeconds, Id);
    }
  }

  /** `Math.min(...xs)`; `None` for no arguments (Infinity). */
  function MinOf(xs: seq<real>): (r: Option<real>)
    ensures r.None? <==> xs == []
    ensures r.Some? ==> (forall j :: 0 <= j < |xs| ==> r.value <= xs[j]) && r.value in xs
  {
    if xs == [] then None
    else
      var m := MinOf(xs[..|xs| - 1]);
      var x := xs[|xs| - 1];
      assert xs == xs[..|xs| - 1] + [x];
      if m.None? || x < m.value then Some(x) else m
  }

  /** Any reordering of the key-order entries holds each driver's averaged tally once. */
  lemma ReorderedEntries(ranked: seq<DriverLapAnalysis>, entries: seq<DriverLapAnalysis>,
                         stats: map<string, DriverLapAnalysis>, keys: seq<string>, timings: seq<Timing>, sec: Timing -> real)
    requires Tallied(stats, keys, timings, sec)
    requires AveragedInKeyOrder(entries, stats, keys)
    requires multiset(ranked) == multiset(entries)
    ensures forall j :: 0 <= j < |ranked| ==>
      Tally(ranked[j].driverId, timings, sec).totalLaps > 0 && ranked[j] == WithAverage(Tally(ranked[j].driverId, timings, sec))
    ensures forall j, k :: 0 <= j < k < |ranked| ==> ranked[j].driverId != ranked[k].driverId
  {
    forall q | 0 <= q < |keys|
      ensures entries[q].driverId == keys[q]
    {
      TallyShape(keys[q], timings, sec);
    }
    forall j | 0 <= j < |ranked|
      ensures Tally(ranked[j].driverId, timings, sec).totalLaps > 0
      ensures ranked[j] == WithAverage(Tally(ranked[j].driverId, timings, sec))
    {
      assert ranked[j] in multiset(entries);
      var q :| 0 <= q < |entries| && entries[q] == ranked[j];
    }
    assert Distinct(entries);
    PermutationDistinct(ranked, entries);
  }

  lemma RankingOfEntries(ranked: seq<DriverLapAnalysis>, entries: seq<DriverLapAnalysis>,
                         stats: map<string, DriverLapAnalysis>, keys: seq<string>, timings: seq<Timing>, sec: Timing -> real)
    requires Tallied(stats, keys, timings, sec)
    requires AveragedInKeyOrder(entries, stats, keys)
    requires SortedBy(ranked, FastestOf) && multiset(ranked) == multiset(entries)
    ensures IsRanking(ranked, timings, sec)
    ensures SumInt(ranked, LapsOf) == |timings|
  {
    ReorderedEntries(ranked, entries, stats, keys, timings, sec);
    forall j | 0 <= j < |timings|
      ensures exists k :: 0 <= k < |ranked| && ranked[k].driverId == timings[j].driverId
    {
      var id := timings[j].driverId;
      assert id in Lists(stats);
      var q :| 0 <= q < |keys| && keys[q] == id;
      TallyShape(id, timings, sec);
      assert entries[q] in multiset(ranked);
    }
    AllDriverLapTimesTotals(entries, stats, keys, timings, sec);
    SumIntPermutation(ranked, entries, LapsOf);
  }

  lemma TalliedKeys(stats: map<string, DriverLapAnalysis>, keys: seq<string>, seen: seq<Timing>, sec: Timing -> real)
    requires Tallied(stats, keys, seen, sec)
    ensures forall k :: k in keys ==> k in stats && stats[k].totalLaps > 0
  {
    forall k | k in keys
      ensures k in stats && stats[k].totalLaps > 0
    {
      assert k in Lists(stats);
      TallyShape(k, seen, sec);
    }
  }

  /** The averages pass over `Object.values(driverStats)`, in key order. */
  method AverageAll(stats: map<string, DriverLapAnalysis>, keys: seq<string>) returns (a: array<DriverLapAnalysis>)
    requires forall k :: k in keys ==> k in stats && stats[k].totalLaps > 0
    ensures fresh(a)
    ensures AveragedInKeyOrder(a[..], stats, keys)
  {
    a := new DriverLapAnalysis[|keys|];
    var q := 0;
    while q < |keys|
      invariant 0 <= q <= |keys|
      invariant forall m :: 0 <= m < q ==> a[m] == WithAverage(stats[keys[m]])
    {
      a[q] := WithAverage(stats[keys[q]]);
      q := q + 1;
    }
  }

  /**
   * The averages, then the sort ascending by `fastestLap`; `values` is the
   * key-order list the overall figures are computed from.
   */
  method RankDrivers(stats: map<string, DriverLapAnalysis>, keys: seq<string>, ghost timings: seq<Timing>, sec: Timing -> real)
    returns (values: seq<DriverLapAnalysis>, sortedDrivers: seq<DriverLapAnalysis>)
    requires Tallied(stats, keys, timings, sec)
    ensures AveragedInKeyOrder(values, stats, keys)
    ensures |sortedDrivers| == |keys|
    ensures IsRanking(sortedDrivers, timings, sec)
    ensures SumInt(sortedDrivers, LapsOf) == |timings|
  {
    TalliedKeys(stats, keys, timings, sec);
    var a := AverageAll(stats, keys);
    values := a[..];
    SortInPlace(a, FastestOf);
    sortedDrivers := a[..];
    assert |multiset(sortedDrivers)| == |multiset(values)|;
    RankingOfEntries(sortedDrivers, values, stats, keys, timings, sec);
  }

  /** Each timing's seconds appear in the flattened list. */
  lemma TimingListed(values: seq<DriverLapAnalysis>, stats: map<string, DriverLapAnalysis>,
                     keys: seq<string>, timings: seq<Timing>, sec: Timing -> real, j: nat)
    requires Tallied(stats, keys, timings, sec)
    requires AveragedInKeyOrder(values, stats, keys)
    requires j < |timings|
    ensures sec(timings[j]) in AllDriverLapTimes(values)
  {
    var id := timings[j].driverId;
    assert id in Lists(stats);
    assert id in keys;
    var q :| 0 <= q < |keys| && keys[q] == id;
    TallyShape(id, timings, sec);
    var f := values[q].laps;
    assert f == Filter(timings, HasKey(DriverOf, id));
    FilterComplete(timings, HasKey(DriverOf, id), j);
    var i :| 0 <= i < |f| && f[i] == timings[j];
    assert values[q].lapTimesSeconds[i] == sec(timings[j]);
    AllDriverLapTimesMembers(values);
  }

  /** A lap time held in a driver's averaged record is the seconds of one of the timings. */
  lemma RecordTimeIsTiming(id: string, timings: seq<Timing>, sec: Timing -> real, i: nat)
    requires Tally(id, timings, sec).totalLaps > 0
    requires i < |WithAverage(Tally(id, timings, sec)).lapTimesSeconds|
    ensures exists j :: 0 <= j < |timings| && sec(timings[j]) == WithAverage(Tally(id, timings, sec)).lapTimesSeconds[i]
  {
    var t := Tally(id, timings, sec);
    TallyShape(id, timings, sec);
    FilterMembers(timings, HasKey(DriverOf, id));
    assert t.laps[i] in timings;
    var j :| 0 <= j < |timings| && timings[j] == t.laps[i];
    assert sec(timings[j]) == t.lapTimesSeconds[i];
  }

  /** Each entry of the flattened list is some timing's seconds. */
  lemma ListedIsTiming(values: seq<DriverLapAnalysis>, stats: map<string, DriverLapAnalysis>,
                       keys: seq<string>, timings: seq<Timing>, sec: Timing -> real, x: real)
    requires Tallied(stats, keys, timings, sec)
    requires AveragedInKeyOrder(values, stats, keys)
    requires x in AllDriverLapTimes(values)
    ensures exists j :: 0 <= j < |timings| && sec(timings[j]) == x
  {
    AllDriverLapTimesMembers(values);
    var q, i :| 0 <= q < |values| && 0 <= i < |values[q].lapTimesSeconds| && values[q].lapTimesSeconds[i] == x;
    assert stats[keys[q]] == Tally(keys[q], timings, sec);
    RecordTimeIsTiming(keys[q], timings, sec, i);
  }

  /**
   * Over the flattened lap times: as many terms and the same total as the
   * timings, and the least of them is a timing's time that no timing beats.
   */
  lemma OverallFigures(values: seq<DriverLapAnalysis>, stats: map<string, DriverLapAnalysis>,
                       keys: seq<string>, timings: seq<Timing>, sec: Timing -> real)
    requires Tallied(stats, keys, timings, sec)
    requires AveragedInKeyOrder(values, stats, keys)
    ensures |AllDriverLapTimes(values)| == |timings|
    ensures SumBy(AllDriverLapTimes(values), Id) == SumBy(timings, sec)
    ensures var m := MinOf(AllDriverLapTimes(values));
      && (m.None? <==> timings == [])
      && (m.Some? ==> (forall j :: 0 <= j < |timings| ==> m.value <= sec(timings[j]))
                      && exists j :: 0 <= j < |timings| && sec(timings[j]) == m.value)
  {
    var all := AllDriverLapTimes(values);
    forall j | 0 <= j < |timings|
      ensures sec(timings[j]) in all
    {
      TimingListed(values, stats, keys, timings, sec, j);
    }
    AllDriverLapTimesTotals(values, stats, keys, timings, sec);
    var m := MinOf(all);
    if m.Some? {
      ListedIsTiming(values, stats, keys, timings, sec, m.value);
    }
  }

  /** What the analytics promise about the laps they summarise. */
  ghost predicate Summarises(a: LapAnalytics, laps: seq<Lap>, sec: Timing -> real)
  {
    var timings := AllTimings(laps);
    && laps != []
    && a.allLaps == laps
    && a.totalLaps == MaxLapNumber(laps)
    && IsRanking(a.driverStats, timings, sec)
    && a.totalDrivers == |a.driverStats|
    && SumInt(a.driverStats, LapsOf) == |timings|
    && (a.overallFastest.None? <==> timings == [])
    && (a.overallFastest.Some? ==>
          (forall j :: 0 <= j < |timings| ==> a.overallFastest.value <= sec(timings[j]))
          && exists j :: 0 <= j < |timings| && sec(timings[j]) == a.overallFastest.value)
    && (a.overallAverage.None? <==> timings == [])
    && (a.overallAverage.Some? ==> a.overallAverage.value == SumBy(timings, sec) / |timings| as real)
  }

  /**
   * The `analytics` memo: null when the fetched list is null or empty,
   * otherwise the nested loops, the averages pass, the ranking sort and the
   * overall fastest and mean lap over the key-order flattened lap times.
   */
  method Analyse(lapData: Option<seq<Lap>>, sec: Timing -> real) returns (analytics: Option<LapAnalytics>)
    ensures analytics.None? <==> (lapData.None? || lapData.value == [])
    ensures analytics.Some? ==> Summarises(analytics.value, lapData.value, sec)
  {
    if lapData.None? || lapData.value == [] {
      return None;
    }
    var allLaps := lapData.value;
    var stats, keys, totalLaps := TallyLaps(allLaps, sec);
    ghost var timings := AllTimings(allLaps);
    var values, sortedDrivers := RankDrivers(stats, keys, timings, sec);
    var allDriverLapTimes := AllDriverLapTimes(values);
    var overallFastest := MinOf(allDriverLapTimes);
    var overallAverage := if allDriverLapTimes == [] then None
      else Some(SumBy(allDriverLapTimes, Id) / |allDriverLapTimes| as real);
    var a := LapAnalytics(allLaps, sortedDrivers, totalLaps, overallFastest, overallAverage, |keys|);
    AnalyticsSummarise(a, allLaps, sec, stats, keys, values);
    analytics := Some(a);
  }

  /** The record `Analyse` builds from the tallies and the ranking summarises the laps. */
  lemma AnalyticsSummarise(a: LapAnalytics, laps: seq<Lap>, sec: Timing -> real,
                           stats: map<string, DriverLapAnalysis>, keys: seq<string>, values: seq<DriverLapAnalysis>)
    requires laps != [] && a.allLaps == laps && a.totalLaps == MaxLapNumber(laps)
    requires Tallied(stats, keys, AllTimings(laps), sec)
    requires AveragedInKeyOrder(values, stats, keys)
    requires |a.driverStats| == |keys| && a.totalDrivers == |keys|
    requires IsRanking(a.driverStats, AllTimings(laps), sec)
    requires SumInt(a.driverStats, LapsOf) == |AllTimings(laps)|
    requires a.overallFastest == MinOf(AllDriverLapTimes(values))
    requires var all := AllDriverLapTimes(values);
      a.overallAverage == if all == [] then None else Some(SumBy(all, Id) / |all| as real)
    ensures Summarises(a, laps, sec)
  {
    OverallFigures(values, stats, keys, AllTimings(laps), sec);
  }

  /** A ranked driver's fastest lap is the time of one of the timings. */
  lemma RankedFastestIsTiming(r: seq<DriverLapAnalysis>, timings: seq<Timing>, sec: Timing -> real, k: nat)
    requires IsRanking(r, timings, sec) && k < |r|
    ensures exists j :: 0 <= j < |timings| && sec(timings[j]) == r[k].fastestLap
  {
    var id := r[k].driverId;
    var t := Tally(id, timings, sec);
    TallyShape(id, timings, sec);
    TallyExtremes(id, timings, sec);
    assert r[k].fastestLap == t.fastestLap;
    var i :| 0 <= i < |t.lapTimesSeconds| && t.lapTimesSeconds[i] == t.fastestLap;
    FilterMembers(timings, HasKey(DriverOf, id));
    assert t.laps[i] in timings;
    var j :| 0 <= j < |timings| && timings[j] == t.laps[i];
    assert sec(timings[j]) == r[k].fastestLap;
  }

  /** No timing of a ranked driver beats that driver's fastest lap. */
  lemma RankedFastestBound(r: seq<DriverLapAnalysis>, timings: seq<Timing>, sec: Timing -> real, k: nat, j: nat)
    requires IsRanking(r, timings, sec) && k < |r| && j < |timings| && r[k].driverId == timings[j].driverId
    ensures r[k].fastestLap <= sec(timings[j])
  {
    var id := r[k].driverId;
    var t := Tally(id, timings, sec);
    TallyShape(id, timings, sec);
    TallyExtremes(id, timings, sec);
    assert r[k].fastestLap == t.fastestLap;
    FilterComplete(timings, HasKey(DriverOf, id), j);
    var i :| 0 <= i < |t.laps| && t.laps[i] == timings[j];
    assert t.lapTimesSeconds[i] == sec(timings[j]);
  }

  /** The overall fastest lap is the first ranked driver's fastest lap. */
  lemma OverallFastestLeadsRanking(a: LapAnalytics, laps: seq<Lap>, sec: Timing -> real)
    requires Summarises(a, laps, sec) && a.overallFastest.Some?
    ensures a.driverStats != [] && a.driverStats[0].fastestLap == a.overallFastest.value
  {
    var timings := AllTimings(laps);
    var r := a.driverStats;
    var v := a.overallFastest.value;
    var j :| 0 <= j < |timings| && sec(timings[j]) == v;
    var k :| 0 <= k < |r| && r[k].driverId == timings[j].driverId;
    RankedFastestIsTiming(r, timings, sec, 0);
    RankedFastestBound(r, timings, sec, k, j);
    assert FastestOf(r[0]) <= FastestOf(r[k]);
  }

  // ---------------------------------------------------------------------
  // Gap to fastest

  /** `allLaps.find(lap => lap.number === selectedLap)` */
  function SelectedLap(allLaps: seq<Lap>, selectedLap: int): Option<Lap>
  {
    Find(allLaps, (l: Lap) => l.number == selectedLap)
  }

  /**
   * `Timings.sort((a, b) => parseTimeToMs(a.time) - parseTimeToMs(b.time))`,
   * which sorts the selected lap's fetched array itself.
   */
  method SortTimings(timings: array<Timing>, ms: Timing -> real)
    modifies timings
    ensures SortedBy(timings[..], ms)
    ensures multiset(timings[..]) == multiset(old(timings[..]))
  {
    SortInPlace(timings, ms);
  }

  datatype GapCell = Dash | Behind(seconds: real)

  /**
   * The "Gap to Fastest" column over the sorted timings: '-' on the first
   * row, else the difference to the first row's time, in seconds.
   * (The page sorts the array again to find the first row; sorting a sorted
   * array leaves the least time first.)
   */
  function Gaps(sorted: seq<Timing>, ms: Timing -> real): (rows: seq<GapCell>)
    ensures |rows| == |sorted|
  {
    seq(|sorted|, (i: int) requires 0 <= i < |sorted| =>
      if i == 0 then Dash else Behind((ms(sorted[i]) - ms(sorted[0])) / 1000.0))
  }

  /** On sorted timings every gap is non-negative, and only the first row is a dash. */
  lemma GapsNonNegative(sorted: seq<Timing>, ms: Timing -> real)
    requires SortedBy(sorted, ms)
    ensures var rows := Gaps(sorted, ms);
      && (rows != [] ==> rows[0] == Dash)
      && (forall i :: 0 < i < |rows| ==> rows[i].Behind? && rows[i].seconds >= 0.0)
      && (forall i :: 0 < i < |rows| ==> rows[i].Behind? && rows[i].seconds * 1000.0 == ms(sorted[i]) - ms(sorted[0]))
  {
  }
}
