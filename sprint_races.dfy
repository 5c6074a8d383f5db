/**
 * The sprint page: the sprint classification of the selected round, the
 * points-scoring panel, the points badge and the colours of the position
 * badges.
 */
module SprintRaces {
  import opened Wrappers
  import opened Seqs
  import opened Chrono
  import opened Domain
  import opened RaceSelection

  /** The sprint points go to the first eight. */
  const PointsPositions: nat := 8

  /** The season loads; the auto-select effect picks the last race dated now or earlier. */
  function AutoSelectRace(races: Option<seq<Race>>, selected: Option<Race>, parse: string -> Instant, now: int): Option<Race>
  {
    AutoSelect(races, selected, parse, now, AtOrBeforeNow)
  }

  /** `sprintData?.[0]?.SprintResults || []` */
  function Classification(data: Option<seq<Race>>): seq<SprintResult>
  {
    FirstRaceList(data, SprintOf)
  }

  /** The "Points Scoring Positions" panel: `sprintResults.slice(0, 8)`. */
  function PointsPanel(results: seq<SprintResult>): seq<SprintResult>
  {
    Slice(results, 0, PointsPositions)
  }

  /** The panel is exactly the first min(8, n) results, in classification order. */
  lemma PointsPanelSpec(results: seq<SprintResult>)
    ensures var n := if |results| < PointsPositions then |results| else PointsPositions;
      PointsPanel(results) == results[..n] && |PointsPanel(results)| == n
  {
    SliceTake(results, PointsPositions);
  }

  /** What `SprintPointsBadge` shows. */
  datatype PointsBadge = NoPoints | Points(points: int)

  /** `parseInt(points) === 0` shows '-', anything else the points. */
  function PointsBadgeOf(points: int): PointsBadge
  {
    if points == 0 then NoPoints else Points(points)
  }

  lemma PointsBadgeSpec(points: int)
    ensures PointsBadgeOf(points).NoPoints? <==> points == 0
    ensures PointsBadgeOf(points).Points? ==> PointsBadgeOf(points).points == points
  {
  }

  /** Within 8 scores points. */
  const SprintLimits: seq<int> := [8]

  /** `SprintPositionBadge`: podium colours, then 4-8, then the rest. */
  function BadgeTier(pos: int): PositionTier
  {
    TierOf(pos, SprintLimits)
  }

  lemma BadgeTierSpec(pos: int)
    ensures BadgeTier(pos) == Winner <==> pos == 1
    ensures BadgeTier(pos) == Second <==> pos == 2
    ensures BadgeTier(pos) == Third <==> pos == 3
    ensures 4 <= pos <= 8 ==> BadgeTier(pos) == Band(0)
    ensures pos > 8 ==> BadgeTier(pos) == Band(1)
  {
    if pos !in {1, 2, 3} {
      if pos <= 8 {
        TierBands(pos, SprintLimits, 0);
      } else {
        TierBands(pos, SprintLimits, 1);
      }
    }
  }

  /**
   * When the classification lists positions 1, 2, 3, ... in order, the
   * points panel holds exactly the entries with a podium or band-0 badge.
   */
  lemma PanelTiers(results: seq<SprintResult>)
    requires forall i :: 0 <= i < |results| ==> results[i].position == i + 1
    ensures forall i :: 0 <= i < |results| ==>
      (results[i] in PointsPanel(results) <==> BadgeTier(results[i].position) in {Winner, Second, Third, Band(0)})
  {
    PointsPanelSpec(results);
    var n := if |results| < PointsPositions then |results| else PointsPositions;
    forall i | 0 <= i < |results|
      ensures results[i] in PointsPanel(results) <==> BadgeTier(results[i].position) in {Winner, Second, Third, Band(0)}
    {
      BadgeTierSpec(results[i].position);
      if i < n {
        assert results[..n][i] == results[i];
      } else {
        forall j | 0 <= j < n
          ensures results[..n][j] != results[i]
        {
          assert results[j].position != results[i].position;
        }
      }
    }
  }
}
