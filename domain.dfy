/**
 * The records the Ergast-style API returns, with the fields the dashboard
 * reads. Numeric fields that the pages only ever pass through `parseInt` or
 * `parseFloat` are held already parsed; lap-time strings, which the lap
 * analysis parses itself, stay strings.
 */
module Domain {
  import opened Wrappers

  datatype Driver = Driver(
    driverId: string,
    code: Option<string>,
    givenName: string,
    familyName: string,
    nationality: string)

  datatype Constructor = Constructor(constructorId: string, name: string, nationality: string)

  /** `FastestLap.lap` and `FastestLap.Time.time` */
  datatype FastestLap = FastestLap(lap: string, time: string)

  /** One classified finisher of a Grand Prix. */
  datatype RaceResult = RaceResult(
    position: int,
    points: string,
    driver: Driver,
    team: Constructor,
    grid: string,
    status: string,
    time: Option<string>,
    fastestLap: Option<FastestLap>)

  /** One line of a qualifying classification; the session times are absent or empty when not set. */
  datatype QualifyingResult = QualifyingResult(
    position: int,
    driver: Driver,
    team: Constructor,
    q1: Option<string>,
    q2: Option<string>,
    q3: Option<string>)

  /** One line of a sprint classification; `points` is `parseInt(points)`. */
  datatype SprintResult = SprintResult(
    position: int,
    points: int,
    driver: Driver,
    team: Constructor,
    grid: string,
    status: string,
    time: Option<string>)

  /** `lap` is `parseInt(lap)`; `duration` is `parseFloat(duration)`, in seconds. */
  datatype PitStop = PitStop(driverId: string, lap: int, stop: int, time: string, duration: real)

  /** One driver's time on one lap, as the API's "m:ss.mmm" text. */
  datatype Timing = Timing(driverId: string, position: string, time: string)

  /** `number` is `parseInt(number)`. */
  datatype Lap = Lap(number: int, timings: seq<Timing>)

  /** A championship row; `points` and `wins` are `parseInt` of the API strings. */
  datatype Standing = Standing(position: int, points: int, wins: int, name: string)

  /**
   * A round of the season. `date` is "YYYY-MM-DD" and `time` the optional
   * "HH:MM:SSZ"; the result lists are present only in the endpoint that
   * returns them.
   */
  datatype Race = Race(
    season: string,
    round: string,
    raceName: string,
    date: string,
    time: Option<string>,
    results: Option<seq<RaceResult>>,
    qualifyingResults: Option<seq<QualifyingResult>>,
    sprintResults: Option<seq<SprintResult>>)

  /** JavaScript truthiness of an optional string: absent and "" are both falsy. */
  predicate Truthy(s: Option<string>)
  {
    s.Some? && s.value != ""
  }

  /** `a || b` on optional strings. */
  function OrElse(a: Option<string>, b: Option<string>): (r: Option<string>)
    ensures Truthy(a) ==> r == a
    ensures !Truthy(a) ==> r == b
  {
    if Truthy(a) then a else b
  }

  /** `a || fallback` with a string fallback. */
  function OrDefault(a: Option<string>, fallback: string): (r: string)
    ensures Truthy(a) ==> r == a.value
    ensures !Truthy(a) ==> r == fallback
  {
    if Truthy(a) then a.value else fallback
  }
}
