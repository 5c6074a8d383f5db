/**
 * The qualifying page: the classification of the selected round, each
 * driver's best session time, the three session panels and the colours of
 * the position badges.
 */
module Qualifying {
  import opened Wrappers
  import opened Seqs
  import opened Chrono
  import opened Domain
  import opened RaceSelection

  /** The season loads; the auto-select effect picks the last race dated now or earlier. */
  function AutoSelectRace(races: Option<seq<Race>>, selected: Option<Race>, parse: string -> Instant, now: int): Option<Race>
  {
    AutoSelect(races, selected, parse, now, AtOrBeforeNow)
  }

  /** `qualifyingData?.[0]?.QualifyingResults || []` */
  function Classification(data: Option<seq<Race>>): seq<QualifyingResult>
  {
    FirstRaceList(data, QualifyingOf)
  }

  // ---------------------------------------------------------------------
  // Session times

  /** `result.Q3 || result.Q2 || result.Q1`: the latest session that set a time. */
  function BestTime(r: QualifyingResult): Option<string>
  {
    OrElse(r.q3, OrElse(r.q2, r.q1))
  }

  /** The "Best" column: `bestTime || '-'`. */
  function BestShown(r: QualifyingResult): string
  {
    OrDefault(BestTime(r), "-")
  }

  /** What a session badge shows: DNF for a missing or empty time. */
  datatype SessionCell = Dnf | SessionTime(time: string)

  /** `QualifyingSessionBadge` */
  function SessionBadge(time: Option<string>): SessionCell
  {
    if !Truthy(time) then Dnf else SessionTime(time.value)
  }

  /**
   * The best time is the Q3 time when set, else the Q2 time, else the Q1
   * time, and "-" when no session set a time; it is always one of the
   * three session badges' times or "-".
   */
  lemma BestTimeSpec(r: QualifyingResult)
    ensures Truthy(r.q3) ==> BestShown(r) == r.q3.value
    ensures !Truthy(r.q3) && Truthy(r.q2) ==> BestShown(r) == r.q2.value
    ensures !Truthy(r.q3) && !Truthy(r.q2) && Truthy(r.q1) ==> BestShown(r) == r.q1.value
    ensures !Truthy(r.q3) && !Truthy(r.q2) && !Truthy(r.q1) ==> BestShown(r) == "-"
    ensures BestShown(r) == "-" || SessionTime(BestShown(r)) in {SessionBadge(r.q1), SessionBadge(r.q2), SessionBadge(r.q3)}
  {
  }

  // ---------------------------------------------------------------------
  // The session panels

  /** The Q3 panel: `slice(0, 10)`. */
  function Q3Panel(results: seq<QualifyingResult>): seq<QualifyingResult> { Slice(results, 0, 10) }

  /** The Q2 panel: `slice(10, 15)`. */
  function Q2Panel(results: seq<QualifyingResult>): seq<QualifyingResult> { Slice(results, 10, 15) }

  /** The Q1 panel: `slice(15)`, the drivers out in Q1. */
  function Q1Panel(results: seq<QualifyingResult>): seq<QualifyingResult> { SliceFrom(results, 15) }

  /** The time beside a Q3 panel entry: `Q3 || Q2 || Q1 || 'DNF'`. */
  function Q3PanelTime(r: QualifyingResult): string { OrDefault(BestTime(r), "DNF") }

  /** The time beside a Q2 panel entry: `Q2 || 'DNF'`. */
  function Q2PanelTime(r: QualifyingResult): string { OrDefault(r.q2, "DNF") }

  /** The time beside a Q1 panel entry: `Q1 || 'DNF'`. */
  function Q1PanelTime(r: QualifyingResult): string { OrDefault(r.q1, "DNF") }

  /**
   * The panels cut the classification into its first ten, the next five
   * and the rest: read in the order Q3, Q2, Q1 they give the whole
   * classification back, with sizes min(10, n), the part of 10..15 below
   * n, and whatever lies past 15.
   */
  lemma PanelsSpec(results: seq<QualifyingResult>)
    ensures Q3Panel(results) + Q2Panel(results) + Q1Panel(results) == results
    ensures |Q3Panel(results)| == if |results| < 10 then |results| else 10
    ensures |Q2Panel(results)| == if |results| <= 10 then 0 else if |results| < 15 then |results| - 10 else 5
    ensures |Q1Panel(results)| == if |results| <= 15 then 0 else |results| - 15
  {
    SliceThree(results, 10, 15);
  }

  /**
   * A Q3 panel entry shows the same time as the "Best" column whenever a
   * session set one, and "DNF" where the column shows "-".
   */
  lemma Q3PanelMatchesBest(r: QualifyingResult)
    ensures Truthy(BestTime(r)) ==> Q3PanelTime(r) == BestShown(r)
    ensures !Truthy(BestTime(r)) ==> Q3PanelTime(r) == "DNF" && BestShown(r) == "-"
  {
  }

  /** A panel time is "DNF" exactly where the table's session badge shows DNF. */
  lemma PanelTimesMatchBadges(r: QualifyingResult)
    ensures Q1PanelTime(r) == (if SessionBadge(r.q1).Dnf? then "DNF" else SessionBadge(r.q1).time)
    ensures Q2PanelTime(r) == (if SessionBadge(r.q2).Dnf? then "DNF" else SessionBadge(r.q2).time)
  {
  }

  // ---------------------------------------------------------------------
  // Position badges

  /** Within 10 reaches Q3, within 15 reaches Q2. */
  const QualifyingLimits: seq<int> := [10, 15]

  /** `QualifyingPositionBadge`: podium colours, then 4-10, 11-15 and the rest. */
  function BadgeTier(pos: int): PositionTier
  {
    TierOf(pos, QualifyingLimits)
  }

  lemma BadgeTierSpec(pos: int)
    ensures BadgeTier(pos) == Winner <==> pos == 1
    ensures BadgeTier(pos) == Second <==> pos == 2
    ensures BadgeTier(pos) == Third <==> pos == 3
    ensures 4 <= pos <= 10 ==> BadgeTier(pos) == Band(0)
    ensures 11 <= pos <= 15 ==> BadgeTier(pos) == Band(1)
    ensures pos > 15 ==> BadgeTier(pos) == Band(2)
  {
    if pos !in {1, 2, 3} {
      if pos <= 10 {
        TierBands(pos, QualifyingLimits, 0);
      } else if pos <= 15 {
        TierBands(pos, QualifyingLimits, 1);
      } else {
        TierBands(pos, QualifyingLimits, 2);
      }
    }
  }

  /**
   * When the classification lists positions 1, 2, 3, ... in order, the
   * badge colours follow the panels: the Q3 panel holds the podium and
   * band 0, the Q2 panel band 1 and the Q1 panel band 2.
   */
  lemma PanelTiers(results: seq<QualifyingResult>)
    requires forall i :: 0 <= i < |results| ==> results[i].position == i + 1
    ensures forall r :: r in Q3Panel(results) ==> BadgeTier(r.position) in {Winner, Second, Third, Band(0)}
    ensures forall r :: r in Q2Panel(results) ==> BadgeTier(r.position) == Band(1)
    ensures forall r :: r in Q1Panel(results) ==> BadgeTier(r.position) == Band(2)
  {
    var n := |results|;
    var a := if 10 < n then 10 else n;
    var b := if 15 < n then 15 else n;
    assert Q3Panel(results) == results[..a];
    assert Q2Panel(results) == results[a..b];
    assert Q1Panel(results) == results[b..];
    forall r | r in Q3Panel(results)
      ensures BadgeTier(r.position) in {Winner, Second, Third, Band(0)}
    {
      var i :| 0 <= i < a && results[..a][i] == r;
      BadgeTierSpec(results[i].position);
    }
    forall r | r in Q2Panel(results)
      ensures BadgeTier(r.position) == Band(1)
    {
      var i :| 0 <= i < b - a && results[a..b][i] == r;
      BadgeTierSpec(results[a + i].position);
    }
    forall r | r in Q1Panel(results)
      ensures BadgeTier(r.position) == Band(2)
    {
      var i :| 0 <= i < n - b && results[b..][i] == r;
      BadgeTierSpec(results[b + i].position);
    }
  }
}
