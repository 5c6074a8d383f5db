/**
 * The client for the Ergast-compatible API: endpoint URLs, the shared
 * fetch wrapper that turns a non-2xx status into an `Error`, the
 * optional-chained extraction of a list from the `MRData` envelope with an
 * empty-list fallback, and the two helpers that pick races by date.
 */
module ApiClient {
  import opened Wrappers
  import opened Text
  import opened Chrono
  import opened Seqs
  import opened Domain
  import opened FetchLifecycle

  const BaseUrl: string := "https://api.jolpi.ca/ergast/f1"

  // ---------------------------------------------------------------------
  // Endpoint URLs

  /** The base URL followed by '/'-separated path segments. */
  function Endpoint(segments: seq<string>): string
    requires |segments| >= 1
  {
    BaseUrl + "/" + Join(segments, '/')
  }

  /** Reading the segments back out of an endpoint URL. */
  lemma EndpointSegments(segments: seq<string>)
    requires |segments| >= 1 && NoneContains(segments, '/')
    ensures var u := Endpoint(segments);
      |u| > |BaseUrl| && u[..|BaseUrl| + 1] == BaseUrl + "/" && Split(u[|BaseUrl| + 1..], '/') == segments
  {
    var u := Endpoint(segments);
    assert u[|BaseUrl| + 1..] == Join(segments, '/');
    SplitJoin(segments, '/');
  }

  /** `${BASE_URL}/${year}/<kind>` */
  function SeasonUrl(year: string, kind: string): string { BaseUrl + "/" + year + "/" + kind }

  function RacesUrl(year: string): string { SeasonUrl(year, "races") }
  function DriverStandingsUrl(year: string): string { SeasonUrl(year, "driverstandings") }
  function ConstructorStandingsUrl(year: string): string { SeasonUrl(year, "constructorstandings") }

  /** `round ? '/' + round : ''` */
  function OptionalSegment(part: Option<string>): string
  {
    if Truthy(part) then "/" + part.value else ""
  }

  /** The qualifying, sprint and results endpoints: the round segment only when one is given. */
  function RoundScopedUrl(year: string, round: Option<string>, kind: string): string
  {
    BaseUrl + "/" + year + OptionalSegment(round) + "/" + kind
  }

  function QualifyingUrl(year: string, round: Option<string>): string { RoundScopedUrl(year, round, "qualifying") }
  function SprintUrl(year: string, round: Option<string>): string { RoundScopedUrl(year, round, "sprint") }
  function ResultsUrl(year: string, round: Option<string>): string { RoundScopedUrl(year, round, "results") }

  function PitStopsUrl(year: string, round: string): string { BaseUrl + "/" + year + "/" + round + "/pitstops" }

  function LapsUrl(year: string, round: string, lap: Option<string>): string
  {
    BaseUrl + "/" + year + "/" + round + "/laps" + OptionalSegment(lap)
  }

  function CircuitsUrl(): string { BaseUrl + "/circuits" }
  function DriversUrl(year: string): string { SeasonUrl(year, "drivers") }
  function ConstructorsUrl(year: string): string { SeasonUrl(year, "constructors") }
  function StatusUrl(): string { BaseUrl + "/status" }

  /** The season-scoped endpoints are the base, the year, then one fixed segment. */
  lemma SeasonUrlSegments(year: string)
    requires '/' !in year
    ensures RacesUrl(year) == Endpoint([year, "races"])
    ensures DriverStandingsUrl(year) == Endpoint([year, "driverstandings"])
    ensures ConstructorStandingsUrl(year) == Endpoint([year, "constructorstandings"])
    ensures DriversUrl(year) == Endpoint([year, "drivers"])
    ensures ConstructorsUrl(year) == Endpoint([year, "constructors"])
    ensures CircuitsUrl() == Endpoint(["circuits"]) && StatusUrl() == Endpoint(["status"])
  {
    SeasonUrlIsEndpoint(year, "races");
    SeasonUrlIsEndpoint(year, "driverstandings");
    SeasonUrlIsEndpoint(year, "constructorstandings");
    SeasonUrlIsEndpoint(year, "drivers");
    SeasonUrlIsEndpoint(year, "constructors");
  }

  lemma SeasonUrlIsEndpoint(year: string, kind: string)
    ensures SeasonUrl(year, kind) == Endpoint([year, kind])
  {
    Join2(year, kind, '/');
  }

  /**
   * A round-scoped URL carries the round as a segment exactly when the
   * round is a non-empty string.
   */
  lemma RoundScopedUrlIsEndpoint(year: string, round: Option<string>, kind: string)
    ensures RoundScopedUrl(year, round, kind) ==
      Endpoint(if Truthy(round) then [year, round.value, kind] else [year, kind])
  {
    if Truthy(round) {
      Join3(year, round.value, kind, '/');
      calc {
        RoundScopedUrl(year, round, kind);
        BaseUrl + "/" + year + ("/" + round.value) + "/" + kind;
        BaseUrl + "/" + (year + "/" + round.value + "/" + kind);
      }
    } else {
      Join2(year, kind, '/');
    }
  }

  /**
   * A round-scoped URL carries the round as a segment exactly when the
   * round is a non-empty string.
   */
  lemma RoundScopedUrlSegments(year: string, round: Option<string>, kind: string)
    requires '/' !in year && '/' !in kind && (round.Some? ==> '/' !in round.value)
    ensures var u := RoundScopedUrl(year, round, kind);
      |u| > |BaseUrl| && u[..|BaseUrl| + 1] == BaseUrl + "/" &&
      Split(u[|BaseUrl| + 1..], '/') == (if Truthy(round) then [year, round.value, kind] else [year, kind])
  {
    RoundScopedUrlIsEndpoint(year, round, kind);
    EndpointSegments(if Truthy(round) then [year, round.value, kind] else [year, kind]);
  }

  lemma LapsUrlIsEndpoint(year: string, round: string, lap: Option<string>)
    ensures LapsUrl(year, round, lap) ==
      Endpoint(if Truthy(lap) then [year, round, "laps", lap.value] else [year, round, "laps"])
  {
    if Truthy(lap) {
      Join4(year, round, "laps", lap.value, '/');
      calc {
        LapsUrl(year, round, lap);
        BaseUrl + "/" + year + "/" + round + "/laps" + ("/" + lap.value);
        BaseUrl + "/" + (year + "/" + round + "/" + "laps" + "/" + lap.value);
      }
    } else {
      Join3(year, round, "laps", '/');
      calc {
        LapsUrl(year, round, lap);
        BaseUrl + "/" + year + "/" + round + "/laps" + "";
        BaseUrl + "/" + (year + "/" + round + "/" + "laps");
      }
    }
  }

  /** The lap-times URL ends with the lap segment exactly when a non-empty lap is given. */
  lemma LapsUrlSegments(year: string, round: string, lap: Option<string>)
    requires '/' !in year && '/' !in round && (lap.Some? ==> '/' !in lap.value)
    ensures var u := LapsUrl(year, round, lap);
      |u| > |BaseUrl| && u[..|BaseUrl| + 1] == BaseUrl + "/" &&
      Split(u[|BaseUrl| + 1..], '/') == (if Truthy(lap) then [year, round, "laps", lap.value] else [year, round, "laps"])
  {
    LapsUrlIsEndpoint(year, round, lap);
    EndpointSegments(if Truthy(lap) then [year, round, "laps", lap.value] else [year, round, "laps"]);
  }

  /** The pit-stop URL is the year, the round, then "pitstops". */
  lemma PitStopsUrlSegments(year: string, round: string)
    requires '/' !in year && '/' !in round
    ensures var u := PitStopsUrl(year, round);
      |u| > |BaseUrl| && u[..|BaseUrl| + 1] == BaseUrl + "/" &&
      Split(u[|BaseUrl| + 1..], '/') == [year, round, "pitstops"]
  {
    var segs := [year, round, "pitstops"];
    Join3(year, round, "pitstops", '/');
    assert PitStopsUrl(year, round) == Endpoint(segs);
    EndpointSegments(segs);
  }

  // ---------------------------------------------------------------------
  // The fetch wrapper

  /** A parsed JSON body. */
  datatype Json = JNull | JBool(b: bool) | JNum(n: real) | JStr(s: string) | JArr(items: seq<Json>) | JObj(fields: map<string, Json>)

  /**
   * How a `fetch` ends: a response with its status and its body as
   * `response.json()` reads it (a Failure when the body is not JSON), or a
   * rejection before any response.
   */
  datatype HttpOutcome = Response(status: int, body: Result<Json, Thrown>) | NetworkFailure(reason: Thrown)

  /** `response.ok` */
  predicate Ok(status: int) { 200 <= status <= 299 }

  function HttpErrorMessage(status: int): string
  {
    "HTTP error! status: " + IntToString(status)
  }

  /** The shared `fetchData`: every error is rethrown unchanged; a non-2xx status becomes an `Error`. */
  function FetchJson(o: HttpOutcome): (r: Result<Json, Thrown>)
  {
    match o
    case NetworkFailure(e) => Failure(e)
    case Response(status, body) =>
      if !Ok(status) then Failure(ErrorObject("Error", HttpErrorMessage(status))) else body
  }

  /** The status can be read back from the message's tail. */
  lemma HttpErrorStatusReadBack(status: nat)
    ensures var m := HttpErrorMessage(status); var p := |"HTTP error! status: "|;
      |m| > p && AllDigits(m[p..]) && DigitsValue(m[p..]) == status
  {
    var m := HttpErrorMessage(status);
    assert m[|"HTTP error! status: "|..] == NatToString(status);
    NatToStringRoundTrip(status);
  }

  /**
   * A failing status reaches the hook as a surfaced error: the state holds
   * the status message, no data, and is no longer loading.
   */
  lemma HttpFailureReachesHook<T>(status: int, body: Result<Json, Thrown>, s: FetchState<T>)
    requires !Ok(status)
    ensures var e := FetchJson(Response(status, body));
      e.Failure? && Surfaces(e.error) &&
      Settled(s, Rejected(e.error)) == FetchState(None, false, Some(HttpErrorMessage(status)))
  {}

  // ---------------------------------------------------------------------
  // Extraction from the envelope

  /** One step of an optional chain: `?.name` or `?.[0]`. */
  datatype Step = Key(name: string) | Index0

  /**
   * A property read on a non-null value; None is `undefined`. The keys the
   * client reads are not built-in properties of strings or arrays.
   */
  function Get(j: Json, step: Step): Option<Json>
  {
    match step
    case Key(k) => if j.JObj? && k in j.fields then Some(j.fields[k]) else None
    case Index0 =>
      match j
      case JArr(xs) => if xs == [] then None else Some(xs[0])
      case JObj(m) => if "0" in m then Some(m["0"]) else None
      case JStr(s) => if s == [] then None else Some(JStr([s[0]]))
      case _ => None
  }

  /** An optional chain: a null or undefined link ends it with `undefined`. */
  function Descend(j: Option<Json>, path: seq<Step>): Option<Json>
    decreases |path|
  {
    if path == [] then j
    else match j
      case None => None
      case Some(v) => if v == JNull then None else Descend(Get(v, path[0]), path[1..])
  }

  /** JavaScript truthiness of a JSON value or `undefined`. */
  predicate TruthyJson(j: Option<Json>)
  {
    match j
    case None => false
    case Some(v) =>
      match v
      case JNull => false
      case JBool(b) => b
      case JNum(n) => n != 0.0
      case JStr(s) => s != ""
      case _ => true
  }

  /**
   * `data.K0?.K1?…|| []`: the first read is not optional, so a null body
   * throws a TypeError.
   */
  function Extract(body: Json, path: seq<Step>): Result<Json, Thrown>
    requires |path| >= 1 && path[0].Key?
  {
    if body == JNull then
      Failure(ErrorObject("TypeError", "Cannot read properties of null (reading '" + path[0].name + "')"))
    else
      var v := Descend(Get(body, path[0]), path[1..]);
      if TruthyJson(v) then Success(v.value) else Success(JArr([]))
  }

  const RacesPath: seq<Step> := [Key("MRData"), Key("RaceTable"), Key("Races")]
  const DriverStandingsPath: seq<Step> := [Key("MRData"), Key("StandingsTable"), Key("StandingsLists"), Index0, Key("DriverStandings")]
  const ConstructorStandingsPath: seq<Step> := [Key("MRData"), Key("StandingsTable"), Key("StandingsLists"), Index0, Key("ConstructorStandings")]
  const PitStopsPath: seq<Step> := [Key("MRData"), Key("RaceTable"), Key("Races"), Index0, Key("PitStops")]
  const LapsPath: seq<Step> := [Key("MRData"), Key("RaceTable"), Key("Races"), Index0, Key("Laps")]
  const CircuitsPath: seq<Step> := [Key("MRData"), Key("CircuitTable"), Key("Circuits")]
  const DriversPath: seq<Step> := [Key("MRData"), Key("DriverTable"), Key("Drivers")]
  const ConstructorsPath: seq<Step> := [Key("MRData"), Key("ConstructorTable"), Key("Constructors")]
  const StatusPath: seq<Step> := [Key("MRData"), Key("StatusTable"), Key("Status")]

  /** Every `get…` function: fetch, then extract along its path. */
  function GetList(o: HttpOutcome, path: seq<Step>): Result<Json, Thrown>
    requires |path| >= 1 && path[0].Key?
  {
    match FetchJson(o)
    case Failure(e) => Failure(e)
    case Success(body) => Extract(body, path)
  }

  /**
   * A `get…` call fails exactly when the network fails, the status is not
   * 2xx, the body is not JSON, or the body is `null`; in every other case it
   * yields a list (possibly the empty fallback).
   */
  lemma GetListFails(o: HttpOutcome, path: seq<Step>)
    requires |path| >= 1 && path[0].Key?
    ensures GetList(o, path).Failure? <==>
      (o.NetworkFailure? || !Ok(o.status) || o.body.Failure? || o.body.value == JNull)
    ensures o.Response? && !Ok(o.status) ==>
      GetList(o, path) == Failure(ErrorObject("Error", HttpErrorMessage(o.status)))
    ensures o.NetworkFailure? ==> GetList(o, path) == Failure(o.reason)
  {}

  /** The smallest body holding `leaf` at the end of `path`. */
  function Nest(path: seq<Step>, leaf: Json): Json
    decreases |path|
  {
    if path == [] then leaf
    else match path[0]
      case Key(k) => JObj(map[k := Nest(path[1..], leaf)])
      case Index0 => JArr([Nest(path[1..], leaf)])
  }

  lemma {:induction false} DescendNest(prefix: seq<Step>, leaf: Json, rest: seq<Step>)
    requires leaf != JNull || rest == []
    ensures Descend(Some(Nest(prefix, leaf)), prefix + rest) == Descend(Some(leaf), rest)
    decreases |prefix|
  {
    if prefix != [] {
      var v := Nest(prefix, leaf);
      assert v != JNull;
      assert (prefix + rest)[0] == prefix[0];
      assert Get(v, prefix[0]) == Some(Nest(prefix[1..], leaf));
      assert (prefix + rest)[1..] == prefix[1..] + rest;
      DescendNest(prefix[1..], leaf, rest);
    } else {
      assert prefix + rest == rest;
    }
  }

  /** Once the chain has ended with `undefined`, every further read gives `undefined`. */
  lemma {:induction false} DescendNone(q: seq<Step>)
    ensures Descend(None, q) == None
  {}

  /** Reading along `p + q` is reading along `p`, then along `q`. */
  lemma {:induction false} DescendConcat(j: Option<Json>, p: seq<Step>, q: seq<Step>)
    ensures Descend(j, p + q) == Descend(Descend(j, p), q)
    decreases |p|
  {
    if p == [] {
      assert p + q == q;
    } else if j.None? {
      DescendNone(q);
    } else if j.value == JNull {
      DescendNone(q);
    } else {
      assert (p + q)[0] == p[0];
      assert (p + q)[1..] == p[1..] + q;
      DescendConcat(Get(j.value, p[0]), p[1..], q);
    }
  }

  /** Extraction reads the whole path from the body, whose first read is never optional. */
  lemma ExtractReadsPath(body: Json, path: seq<Step>)
    requires |path| >= 1 && path[0].Key? && body != JNull
    ensures Extract(body, path) ==
      (if TruthyJson(Descend(Some(body), path)) then Success(Descend(Some(body), path).value) else Success(JArr([])))
  {}

  /**
   * Whatever else the body holds, a list that the path reaches is what
   * extraction returns, empty or not.
   */
  lemma ExtractFinds(body: Json, path: seq<Step>, items: seq<Json>)
    requires |path| >= 1 && path[0].Key? && body != JNull
    requires Descend(Some(body), path) == Some(JArr(items))
    ensures Extract(body, path) == Success(JArr(items))
  {
    ExtractReadsPath(body, path);
  }

  /**
   * A chain that ends with `undefined` after any prefix of the path (a
   * missing key, an empty list, a `null` or a value with no such property),
   * or that ends in a falsy value, gives the empty list and never throws.
   */
  lemma ExtractFallsBack(body: Json, path: seq<Step>, k: nat)
    requires |path| >= 1 && path[0].Key? && body != JNull && k <= |path|
    requires Descend(Some(body), path[..k]) == None || !TruthyJson(Descend(Some(body), path))
    ensures Extract(body, path) == Success(JArr([]))
  {
    ExtractReadsPath(body, path);
    if Descend(Some(body), path[..k]) == None {
      assert path[..k] + path[k..] == path;
      DescendConcat(Some(body), path[..k], path[k..]);
      DescendNone(path[k..]);
    }
  }

  /** The smallest envelope holding a list at the end of the path. */
  lemma ExtractFindsNest(path: seq<Step>, items: seq<Json>)
    requires |path| >= 1 && path[0].Key?
    ensures Extract(Nest(path, JArr(items)), path) == Success(JArr(items))
  {
    DescendNest(path, JArr(items), []);
    assert path + [] == path;
    ExtractFinds(Nest(path, JArr(items)), path, items);
  }

  /** The smallest envelope that stops, empty, before the list. */
  lemma ExtractFallsBackNest(path: seq<Step>, k: nat)
    requires |path| >= 1 && path[0].Key? && 1 <= k < |path|
    ensures Extract(Nest(path[..k], JObj(map[])), path) == Success(JArr([]))
  {
    DescendNest(path[..k], JObj(map[]), path[k..]);
    assert path[..k] + path[k..] == path;
  }

  /**
   * A race-table reply with sibling keys and no `Races` key, or one whose
   * `Races` is `null`, gives the empty list.
   */
  lemma RacesMissingOrNull()
    ensures var table := JObj(map["season" := JStr("2024")]);
      Extract(JObj(map["MRData" := JObj(map["series" := JStr("f1"), "RaceTable" := table])]), RacesPath) == Success(JArr([]))
    ensures var table := JObj(map["season" := JStr("2024"), "Races" := JNull]);
      Extract(JObj(map["MRData" := JObj(map["series" := JStr("f1"), "RaceTable" := table])]), RacesPath) == Success(JArr([]))
  {
    var t1 := JObj(map["season" := JStr("2024")]);
    var b1 := JObj(map["MRData" := JObj(map["series" := JStr("f1"), "RaceTable" := t1])]);
    assert Descend(Some(b1), RacesPath) == None by {
      assert Get(b1, Key("MRData")) == Some(JObj(map["series" := JStr("f1"), "RaceTable" := t1]));
      assert Get(t1, Key("Races")) == None;
    }
    ExtractFallsBack(b1, RacesPath, |RacesPath|);
  }

  /** Of the standings lists and the races, only the first entry is ever read. */
  lemma OnlyFirstEntryRead(first: Json, rest: seq<Json>, tail: seq<Step>)
    ensures Descend(Some(JArr([first] + rest)), [Index0] + tail) == Descend(Some(first), tail)
  {
    assert ([Index0] + tail)[1..] == tail;
  }

  // ---------------------------------------------------------------------
  // Picking races by date

  /** `new Date(race.date) >= now`, with `new Date` given as `parse`. */
  function OnOrAfterNow(parse: string -> Instant, now: Instant): Race -> bool
  {
    (r: Race) => AtOrAfter(parse(r.date), now)
  }

  /** `getUpcomingRaces`: the races dated now or later, cut with `slice(0, limit)`.
      The source defaults `limit` to 3; here every caller passes it. */
  function UpcomingRaces(races: seq<Race>, parse: string -> Instant, now: Instant, limit: int): seq<Race>
  {
    Slice(Filter(races, OnOrAfterNow(parse, now)), 0, limit)
  }

  /**
   * The upcoming races are the first races dated now or later (a prefix of
   * that list, so the nearest ones), keep the season's order, and number
   * `limit` (or all of them, if fewer) — a negative limit drops that many
   * from the end instead.
   */
  lemma UpcomingRacesSpec(races: seq<Race>, parse: string -> Instant, now: Instant, limit: int)
    ensures var r := UpcomingRaces(races, parse, now, limit);
      var n := Count(races, OnOrAfterNow(parse, now));
      && r <= Filter(races, OnOrAfterNow(parse, now))
      && (forall i :: 0 <= i < |r| ==> AtOrAfter(parse(r[i].date), now))
      && IsSubsequence(r, races)
      && (limit >= 0 ==> |r| == if limit < n then limit else n)
      && (limit < 0 ==> |r| == if n + limit < 0 then 0 else n + limit)
  {
    var f := Filter(races, OnOrAfterNow(parse, now));
    FilterSound(races, OnOrAfterNow(parse, now));
    FilterIsSubsequence(races, OnOrAfterNow(parse, now));
    var r := UpcomingRaces(races, parse, now, limit);
    assert r == f[..|r|];
    SubsequencePrefix(f, races, |r|);
    forall i | 0 <= i < |r|
      ensures AtOrAfter(parse(r[i].date), now)
    {
      assert r[i] == f[i];
    }
  }

  /** `getCurrentRace`: the first race dated now or later, else the first race of the season. */
  function CurrentRace(races: seq<Race>, parse: string -> Instant, now: Instant): Option<Race>
  {
    match Find(races, OnOrAfterNow(parse, now))
    case Some(r) => Some(r)
    case None => if races == [] then None else Some(races[0])
  }

  lemma CurrentRaceSpec(races: seq<Race>, parse: string -> Instant, now: Instant)
    ensures var c := CurrentRace(races, parse, now);
      && (c.None? <==> races == [])
      && (forall i ::
            (0 <= i < |races| && AtOrAfter(parse(races[i].date), now) &&
             forall j :: 0 <= j < i ==> !AtOrAfter(parse(races[j].date), now))
            ==> c == Some(races[i]))
      && ((forall i :: 0 <= i < |races| ==> !AtOrAfter(parse(races[i].date), now)) && races != [] ==> c == Some(races[0]))
  {
    var p := OnOrAfterNow(parse, now);
    match FindIndex(races, p)
    case None =>
    case Some(k) =>
      forall i | 0 <= i < |races| && AtOrAfter(parse(races[i].date), now)
          && (forall j :: 0 <= j < i ==> !AtOrAfter(parse(races[j].date), now))
        ensures i == k
      {
        assert p(races[i]) && p(races[k]);
      }
  }
}
