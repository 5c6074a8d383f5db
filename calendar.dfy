/**
 * The calendar page: the selected month and its stepping buttons, the
 * six-week grid `MonthView` lays out with the race of each day, and the
 * counts shown beside it.
 */
module Calendar {
  import opened Wrappers
  import opened Seqs
  import opened Chrono
  import opened Domain
  import opened ApiClient

  // ---------------------------------------------------------------------
  // The selected month

  /** Months counted from year 0, month 0; one step of the buttons moves it by one. */
  function MonthIndex(month: int, year: int): int
  {
    year * 12 + month
  }

  /** `nextMonth`: December rolls over to January of the next year. */
  function NextOf(month: int, year: int): (r: (int, int))
    requires 0 <= month < 12
    ensures 0 <= r.0 < 12
    ensures MonthIndex(r.0, r.1) == MonthIndex(month, year) + 1
  {
    if month == 11 then (0, year + 1) else (month + 1, year)
  }

  /** `prevMonth`: January rolls back to December of the previous year. */
  function PrevOf(month: int, year: int): (r: (int, int))
    requires 0 <= month < 12
    ensures 0 <= r.0 < 12
    ensures MonthIndex(r.0, r.1) == MonthIndex(month, year) - 1
  {
    if month == 0 then (11, year - 1) else (month - 1, year)
  }

  /** A month is determined by its index. */
  lemma MonthIndexInjective(m1: int, y1: int, m2: int, y2: int)
    requires 0 <= m1 < 12 && 0 <= m2 < 12
    requires MonthIndex(m1, y1) == MonthIndex(m2, y2)
    ensures m1 == m2 && y1 == y2
  {
  }

  /** Previous after next, and next after previous, give back the same month. */
  lemma StepsInverse(month: int, year: int)
    requires 0 <= month < 12
    ensures var n := NextOf(month, year); PrevOf(n.0, n.1) == (month, year)
    ensures var p := PrevOf(month, year); NextOf(p.0, p.1) == (month, year)
  {
    var n := NextOf(month, year);
    MonthIndexInjective(PrevOf(n.0, n.1).0, PrevOf(n.0, n.1).1, month, year);
    var p := PrevOf(month, year);
    MonthIndexInjective(NextOf(p.0, p.1).0, NextOf(p.0, p.1).1, month, year);
  }

  /** `selectedMonth` and `selectedYear`, the page's state, and the two buttons that change it. */
  class MonthSelection {
    var month: int
    var year: int

    ghost predicate Valid()
      reads this
    {
      0 <= month < 12
    }

    constructor (year: int, month: int)
      requires 0 <= month < 12
      ensures Valid() && this.month == month && this.year == year
    {
      this.month := month;
      this.year := year;
    }

    method NextMonth()
      requires Valid()
      modifies this
      ensures Valid()
      ensures (month, year) == NextOf(old(month), old(year))
    {
      if month == 11 {
        month := 0;
        year := year + 1;
      } else {
        month := month + 1;
      }
    }

    method PrevMonth()
      requires Valid()
      modifies this
      ensures Valid()
      ensures (month, year) == PrevOf(old(month), old(year))
    {
      if month == 0 {
        month := 11;
        year := year - 1;
      } else {
        month := month - 1;
      }
    }
  }

  // ---------------------------------------------------------------------
  // racesByDate

  /**
   * The map key of a race: its local date, with `None` for the key every
   * unreadable date produces ("NaN-NaN-NaN"). `localDate` stands for
   * `new Date(race.date)` read through the local calendar.
   */
  function KeyIs(localDate: string -> Option<CivilDate>, key: Option<CivilDate>): Race -> bool
  {
    (r: Race) => localDate(r.date) == key
  }

  /** Adding the next race to the map keeps "each key holds the last race with that key". */
  lemma ByDateStep(races: seq<Race>, localDate: string -> Option<CivilDate>, i: nat, key: Option<CivilDate>)
    requires i < |races|
    ensures var p := KeyIs(localDate, key);
      if localDate(races[i].date) == key then LastMatch(races[..i + 1], p) == Some(i)
      else LastMatch(races[..i + 1], p) == LastMatch(races[..i], p)
  {
    var s := races[..i + 1];
    assert s[..|s| - 1] == races[..i];
    assert s[|s| - 1] == races[i];
  }

  /**
   * The `forEach` that fills `racesByDate`: a date holds a race exactly when
   * some race falls on it, and then the last such race in the list, since
   * `set` overwrites.
   */
  method RacesByDate(races: seq<Race>, localDate: string -> Option<CivilDate>)
    returns (byDate: map<Option<CivilDate>, Race>)
    ensures forall key :: key in byDate <==> LastMatch(races, KeyIs(localDate, key)).Some?
    ensures forall key :: key in byDate ==> byDate[key] == races[LastMatch(races, KeyIs(localDate, key)).value]
  {
    byDate := map[];
    var i := 0;
    while i < |races|
      invariant 0 <= i <= |races|
      invariant forall key :: key in byDate <==> LastMatch(races[..i], KeyIs(localDate, key)).Some?
      invariant forall key :: key in byDate ==> byDate[key] == races[LastMatch(races[..i], KeyIs(localDate, key)).value]
    {
      var race := races[i];
      var dateKey := localDate(race.date);
      forall key
        ensures var p := KeyIs(localDate, key);
          if dateKey == key then LastMatch(races[..i + 1], p) == Some(i)
          else LastMatch(races[..i + 1], p) == LastMatch(races[..i], p)
      {
        ByDateStep(races, localDate, i, key);
      }
      byDate := byDate[dateKey := race];
      i := i + 1;
    }
    assert races[..i] == races;
  }

  // ---------------------------------------------------------------------
  // The six-week grid

  /** One square of the grid. */
  datatype Cell = Cell(date: CivilDate, race: Option<Race>, isToday: bool, isCurrentMonth: bool)

  const GridDays: nat := 42

  function FirstWeekday(year: int, month: int): (w: nat)
    requires 0 <= month < 12
    ensures w < 7
  {
    Weekday(FirstOfMonth(year, month))
  }

  /** `startDate`: the 1st of the month moved back by its weekday, to a Sunday. */
  function GridStart(year: int, month: int): (d: CivilDate)
    requires 0 <= month < 12
    ensures ValidDate(d)
  {
    SubDays(FirstOfMonth(year, month), FirstWeekday(year, month))
  }

  lemma WeekdayShift(n: int, w: int)
    requires 0 <= w < 7 && (n + 4) % 7 == w
    ensures (n - w + 4) % 7 == 0
  {
    var q := (n + 4) / 7;
    assert n + 4 == 7 * q + w;
    assert n - w + 4 == 7 * q;
  }

  /** A date `w` days before a date of weekday `w` is a Sunday. */
  lemma SundayBefore(first: CivilDate, start: CivilDate, w: nat)
    requires 0 <= first.month < 12 && 0 <= start.month < 12
    requires Weekday(first) == w && DayNumber(start) == DayNumber(first) - w
    ensures Weekday(start) == 0
  {
    WeekdayShift(DayNumber(first), w);
  }

  /** The grid starts on a Sunday, on the 1st or in the six days before it. */
  lemma GridStartSpec(year: int, month: int)
    requires 0 <= month < 12
    ensures Weekday(GridStart(year, month)) == 0
    ensures var back := DayNumber(FirstOfMonth(year, month)) - DayNumber(GridStart(year, month));
      0 <= back <= 6 && back == FirstWeekday(year, month)
  {
    var first := FirstOfMonth(year, month);
    var w := FirstWeekday(year, month);
    var start := SubDays(first, w);
    assert start == GridStart(year, month);
    SubDaysNumber(first, w);
    SundayBefore(first, start, w);
  }

  /** Moving back `w` days from `first` and then forward `w + k` is moving forward `k` from `first`. */
  lemma BackThenForward(first: CivilDate, w: nat, k: nat, start: CivilDate, target: CivilDate)
    requires ValidDate(first) && start == SubDays(first, w) && AddDays(first, k) == target
    ensures AddDays(start, w + k) == target
  {
    AddDaysSum(start, w, k);
    AddSubDays(first, w);
  }

  /** Every day of the month has its square: day `k + 1` at index `w + k`, `w` the weekday of the 1st. */
  lemma GridCoversMonth(year: int, month: int, k: nat, w: nat)
    requires 0 <= month < 12 && k < MonthLength(year, month) && w == FirstWeekday(year, month)
    ensures w + k < GridDays
    ensures AddDays(GridStart(year, month), w + k) == CivilDate(year, month, k + 1)
  {
    AddDaysInMonth(year, month, k);
    BackThenForward(FirstOfMonth(year, month), w, k, GridStart(year, month), CivilDate(year, month, k + 1));
  }

  /** Squares are consecutive days. */
  lemma GridConsecutive(year: int, month: int, i: nat)
    requires 0 <= month < 12
    ensures DayNumber(AddDays(GridStart(year, month), i)) == DayNumber(GridStart(year, month)) + i
  {
    AddDaysNumber(GridStart(year, month), i);
  }

  /** The race `racesByDate.get(dateKey)` yields for a date, if any. */
  function Lookup(racesByDate: map<Option<CivilDate>, Race>, date: CivilDate): Option<Race>
  {
    if Some(date) in racesByDate then Some(racesByDate[Some(date)]) else None
  }

  /**
   * The loop of `MonthView`: 42 squares from `startDate`, each showing the
   * race `racesByDate` holds for its date, marked as today when it is
   * `today`'s date and as in the month when its month is `month`.
   */
  method FillGrid(startDate: CivilDate, month: int, today: CivilDate, racesByDate: map<Option<CivilDate>, Race>)
    returns (cells: seq<Cell>)
    requires ValidDate(startDate)
    ensures |cells| == GridDays
    ensures forall i :: 0 <= i < |cells| ==> cells[i].date == AddDays(startDate, i)
    ensures forall i :: 0 <= i < |cells| ==> (cells[i].isCurrentMonth <==> cells[i].date.month == month)
    ensures forall i :: 0 <= i < |cells| ==> (cells[i].isToday <==> cells[i].date == today)
    ensures forall i :: 0 <= i < |cells| ==> cells[i].race == Lookup(racesByDate, cells[i].date)
  {
    cells := [];
    var i := 0;
    while i < GridDays
      invariant 0 <= i <= GridDays && |cells| == i
      invariant forall j :: 0 <= j < i ==> cells[j].date == AddDays(startDate, j)
      invariant forall j :: 0 <= j < i ==> (cells[j].isCurrentMonth <==> cells[j].date.month == month)
      invariant forall j :: 0 <= j < i ==> (cells[j].isToday <==> cells[j].date == today)
      invariant forall j :: 0 <= j < i ==> cells[j].race == Lookup(racesByDate, cells[j].date)
    {
      var currentDate := AddDays(startDate, i);
      var race := Lookup(racesByDate, currentDate);
      cells := cells + [Cell(currentDate, race, currentDate == today, currentDate.month == month)];
      i := i + 1;
    }
  }

  /**
   * `MonthView`: the grid from `startDate`, each square showing the last
   * race whose local date is the square's date.
   */
  method MonthView(year: int, month: int, today: CivilDate, races: seq<Race>, localDate: string -> Option<CivilDate>)
    returns (cells: seq<Cell>)
    requires 0 <= month < 12
    ensures |cells| == GridDays
    ensures forall i :: 0 <= i < |cells| ==> cells[i].date == AddDays(GridStart(year, month), i)
    ensures forall i :: 0 <= i < |cells| ==> (cells[i].isCurrentMonth <==> cells[i].date.month == month)
    ensures forall i :: 0 <= i < |cells| ==> (cells[i].isToday <==> cells[i].date == today)
    ensures forall i :: 0 <= i < |cells| ==>
      var last := LastMatch(races, KeyIs(localDate, Some(cells[i].date)));
      (cells[i].race.Some? <==> last.Some?) && (last.Some? ==> cells[i].race == Some(races[last.value]))
  {
    var startDate := GridStart(year, month);
    var racesByDate := RacesByDate(races, localDate);
    cells := FillGrid(startDate, month, today, racesByDate);
  }

  // ---------------------------------------------------------------------
  // The counts beside the grid

  /** `new Date(race.date) > new Date()` */
  function AfterNow(parse: string -> Instant, now: int): Race -> bool
  {
    (r: Race) => After(parse(r.date), At(now))
  }

  /** The local date falls in the selected month of the selected year. */
  function InMonth(localDate: string -> Option<CivilDate>, month: int, year: int): Race -> bool
  {
    (r: Race) => localDate(r.date).Some? && localDate(r.date).value.month == month && localDate(r.date).value.year == year
  }

  /** The quick view: `races?.filter(date >= now).slice(0, 3) || []`. */
  function QuickView(races: Option<seq<Race>>, parse: string -> Instant, now: int): seq<Race>
  {
    if races.None? then [] else UpcomingRaces(races.value, parse, At(now), 3)
  }

  /** "Races This Month": `races?.filter(same month and year).length || 0`. */
  function RacesThisMonth(races: Option<seq<Race>>, localDate: string -> Option<CivilDate>, month: int, year: int): nat
  {
    if races.None? then 0 else Count(races.value, InMonth(localDate, month, year))
  }

  /** "Races Remaining": `races?.filter(date > now).length || 0`. */
  function RacesRemaining(races: Option<seq<Race>>, parse: string -> Instant, now: int): nat
  {
    if races.None? then 0 else Count(races.value, AfterNow(parse, now))
  }

  /** "Total Races": `races?.length || 0`. */
  function TotalRaces(races: Option<seq<Race>>): nat
  {
    if races.None? then 0 else |races.value|
  }

  /**
   * The quick view holds the first three races dated now or later (all of
   * them, if fewer), in season order. "Races Remaining" counts strictly later races, so it never
   * exceeds the races dated now or later; both counts are at most the total.
   */
  lemma CountsSpec(races: Option<seq<Race>>, parse: string -> Instant, localDate: string -> Option<CivilDate>,
                   now: int, month: int, year: int)
    ensures var q := QuickView(races, parse, now);
      && |q| <= 3
      && (forall i :: 0 <= i < |q| ==> AtOrAfter(parse(q[i].date), At(now)))
      && (races.Some? ==> IsSubsequence(q, races.value))
      && (races.Some? ==>
            var n := Count(races.value, OnOrAfterNow(parse, At(now)));
            q <= Filter(races.value, OnOrAfterNow(parse, At(now))) && |q| == if n < 3 then n else 3)
    ensures races.Some? ==> RacesRemaining(races, parse, now) <= Count(races.value, OnOrAfterNow(parse, At(now)))
    ensures RacesRemaining(races, parse, now) <= TotalRaces(races)
    ensures RacesThisMonth(races, localDate, month, year) <= TotalRaces(races)
  {
    if races.Some? {
      var rs := races.value;
      UpcomingRacesSpec(rs, parse, At(now), 3);
      var later, onOrAfter := AfterNow(parse, now), OnOrAfterNow(parse, At(now));
      forall r: Race
        ensures later(r) ==> onOrAfter(r)
      {
        assert later(r) == After(parse(r.date), At(now));
        assert onOrAfter(r) == AtOrAfter(parse(r.date), At(now));
      }
      CountMonotone(rs, later, onOrAfter);
      FilterSound(rs, onOrAfter);
      FilterSound(rs, InMonth(localDate, month, year));
    }
  }
}
