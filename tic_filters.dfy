/**
 * The tic-history screen's view state and its table filter (src/TicData.js):
 * the time-range and location filters, the date sort, the distinct locations,
 * and the small state updates behind its buttons.
 */
module TicFilters {
  import opened Wrappers
  import opened Seqs

  /** One ticHistory document. `date` is its timestamp in milliseconds. */
  datatype Tic = Tic(timeOfDay: string, date: int, intensity: real, location: string)

  /**
   * The browser's local calendar, read off a timestamp: `dayOf` tells days apart
   * as `toDateString` does, `monthOf` is `getMonth`, `yearOf` is `getFullYear`.
   */
  datatype Calendar = Calendar(dayOf: int -> int, monthOf: int -> int, yearOf: int -> int)

  datatype TimeRange = All | Today | LastWeek | LastMonth | Last3Months | Last6Months | LastYear | SpecificDate

  datatype SortDirection = Asc | Desc

  datatype ChartMode = Avg | Total | Count

  /** The modes the chart cycles through, in order. */
  const ChartModes: seq<ChartMode> := [Avg, Total, Count]

  /**
   * The component's filter state. `specificDate` is the parsed date picker value,
   * None while the picker is empty.
   */
  datatype ViewState = ViewState(
    timeRange: TimeRange,
    specificDate: Option<int>,
    locationFilter: seq<string>,
    sortDirection: SortDirection,
    chartModeIndex: nat)

  /** The state the screen opens with. */
  const Initial := ViewState(All, None, [], Desc, 0)

  const DayMs := 24 * 60 * 60 * 1000

  // ---- filteredData ----

  /** The time-range test each tic goes through when no specific date is chosen. */
  predicate InRange(range: TimeRange, cal: Calendar, now: int, t: Tic)
  {
    match range
    case Today => cal.dayOf(t.date) == cal.dayOf(now)
    case LastWeek => now - t.date <= 7 * DayMs
    case LastMonth => cal.monthOf(t.date) == cal.monthOf(now) && cal.yearOf(t.date) == cal.yearOf(now)
    case Last3Months => now - t.date <= 90 * DayMs
    case Last6Months => now - t.date <= 180 * DayMs
    case LastYear => cal.yearOf(t.date) == cal.yearOf(now)
    case _ => true
  }

  function RangeTest(range: TimeRange, cal: Calendar, now: int): Tic -> bool
  {
    (t: Tic) => InRange(range, cal, now, t)
  }

  function SameDayTest(cal: Calendar, day: int): Tic -> bool
  {
    (t: Tic) => cal.dayOf(t.date) == cal.dayOf(day)
  }

  function LocationTest(locations: seq<string>): Tic -> bool
  {
    (t: Tic) => t.location in locations
  }

  /** The time step: a range filter, a same-day filter, or nothing for an empty date picker. */
  function TimeFiltered(data: seq<Tic>, v: ViewState, cal: Calendar, now: int): seq<Tic>
  {
    if v.timeRange != SpecificDate then Filter(data, RangeTest(v.timeRange, cal, now))
    else if v.specificDate.Some? then Filter(data, SameDayTest(cal, v.specificDate.value))
    else data
  }

  /** The location step, skipped when no location is selected. */
  function LocationFiltered(data: seq<Tic>, locations: seq<string>): seq<Tic>
  {
    if |locations| > 0 then Filter(data, LocationTest(locations)) else data
  }

  /** The comparator's key: the date, negated for the descending order. */
  function DateKey(dir: SortDirection): Tic -> int
  {
    if dir == Desc then (t: Tic) => -t.date else (t: Tic) => t.date
  }

  /** The rows of the table: both filters, then the stable sort by date. */
  function FilteredData(data: seq<Tic>, v: ViewState, cal: Calendar, now: int): seq<Tic>
  {
    SortBy(LocationFiltered(TimeFiltered(data, v, cal, now), v.locationFilter), DateKey(v.sortDirection))
  }

  /** Whether a tic belongs in the table: an independent statement of both filters. */
  predicate Shown(v: ViewState, cal: Calendar, now: int, t: Tic)
  {
    && (v.timeRange != SpecificDate ==> InRange(v.timeRange, cal, now, t))
    && (v.timeRange == SpecificDate && v.specificDate.Some? ==> cal.dayOf(t.date) == cal.dayOf(v.specificDate.value))
    && (|v.locationFilter| > 0 ==> t.location in v.locationFilter)
  }

  lemma TimeFilteredCounts(data: seq<Tic>, v: ViewState, cal: Calendar, now: int)
    ensures forall t :: multiset(TimeFiltered(data, v, cal, now))[t]
                        == if Shown(v.(locationFilter := []), cal, now, t) then multiset(data)[t] else 0
  {
    if v.timeRange != SpecificDate {
      FilterCounts(data, RangeTest(v.timeRange, cal, now));
    } else if v.specificDate.Some? {
      FilterCounts(data, SameDayTest(cal, v.specificDate.value));
    }
  }

  /** The table shows every copy of each shown tic and nothing else, in whatever order. */
  lemma FilteredCounts(data: seq<Tic>, v: ViewState, cal: Calendar, now: int)
    ensures forall t :: multiset(FilteredData(data, v, cal, now))[t]
                        == if Shown(v, cal, now, t) then multiset(data)[t] else 0
  {
    var timed := TimeFiltered(data, v, cal, now);
    var located := LocationFiltered(timed, v.locationFilter);
    TimeFilteredCounts(data, v, cal, now);
    if |v.locationFilter| > 0 {
      FilterCounts(timed, LocationTest(v.locationFilter));
    }
    SortByPermutes(located, DateKey(v.sortDirection));
  }

  /** The table is a sub-multiset of the data, and a location filter keeps only its locations. */
  lemma FilteredSubset(data: seq<Tic>, v: ViewState, cal: Calendar, now: int)
    ensures multiset(FilteredData(data, v, cal, now)) <= multiset(data)
    ensures |v.locationFilter| > 0 ==>
              forall t :: t in FilteredData(data, v, cal, now) ==> t.location in v.locationFilter
  {
    var r := FilteredData(data, v, cal, now);
    FilteredCounts(data, v, cal, now);
    forall t | t in r
      ensures Shown(v, cal, now, t)
    {
      assert multiset(r)[t] > 0;
    }
  }

  /** "All time" with no location selected shows the whole history, reordered. */
  lemma AllIsPermutation(data: seq<Tic>, v: ViewState, cal: Calendar, now: int)
    requires v.timeRange == All && v.locationFilter == []
    ensures multiset(FilteredData(data, v, cal, now)) == multiset(data)
  {
    FilteredCounts(data, v, cal, now);
  }

  /** The length of each sliding window, in days. */
  function WindowDays(range: TimeRange): nat
    requires range in {LastWeek, Last3Months, Last6Months}
  {
    if range == LastWeek then 7 else if range == Last3Months then 90 else 180
  }

  /** The sliding windows keep exactly the tics at most so many days old. */
  lemma WindowKeeps(data: seq<Tic>, v: ViewState, cal: Calendar, now: int)
    requires v.timeRange in {LastWeek, Last3Months, Last6Months} && v.locationFilter == []
    ensures forall t :: multiset(FilteredData(data, v, cal, now))[t]
                        == if now - t.date <= WindowDays(v.timeRange) * DayMs then multiset(data)[t] else 0
  {
    FilteredCounts(data, v, cal, now);
  }

  /** The table is sorted by date: newest first when descending, oldest first otherwise. */
  lemma FilteredSorted(data: seq<Tic>, v: ViewState, cal: Calendar, now: int)
    ensures var r := FilteredData(data, v, cal, now);
            forall i, j :: 0 <= i < j < |r| ==>
              if v.sortDirection == Desc then r[i].date >= r[j].date else r[i].date <= r[j].date
  {
    var located := LocationFiltered(TimeFiltered(data, v, cal, now), v.locationFilter);
    SortBySorted(located, DateKey(v.sortDirection));
  }

  function ShownTest(v: ViewState, cal: Calendar, now: int): Tic -> bool
  {
    (t: Tic) => Shown(v, cal, now, t)
  }

  function DateTest(date: int): Tic -> bool
  {
    (t: Tic) => t.date == date
  }

  function ShownOnTest(v: ViewState, cal: Calendar, now: int, date: int): Tic -> bool
  {
    (t: Tic) => Shown(v, cal, now, t) && t.date == date
  }

  /** Before the sort, the two filters keep the shown tics in their original order. */
  lemma FilteredBeforeSort(data: seq<Tic>, v: ViewState, cal: Calendar, now: int)
    ensures LocationFiltered(TimeFiltered(data, v, cal, now), v.locationFilter) == Filter(data, ShownTest(v, cal, now))
  {
    var shown := ShownTest(v, cal, now);
    var located := LocationTest(v.locationFilter);
    var timeTest := if v.timeRange != SpecificDate then RangeTest(v.timeRange, cal, now)
                    else if v.specificDate.Some? then SameDayTest(cal, v.specificDate.value)
                    else (t: Tic) => true;
    if v.timeRange != SpecificDate || v.specificDate.Some? {
      if |v.locationFilter| > 0 {
        FilterCompose(data, timeTest, located, shown);
      } else {
        FilterSame(data, timeTest, shown);
      }
    } else if |v.locationFilter| > 0 {
      FilterSame(data, located, shown);
    } else {
      FilterAll(data, shown);
    }
  }

  /**
   * The sort is stable: the tics of one date appear in the table in the order
   * they have in the history.
   */
  lemma FilteredStable(data: seq<Tic>, v: ViewState, cal: Calendar, now: int, date: int)
    ensures Filter(FilteredData(data, v, cal, now), DateTest(date)) == Filter(data, ShownOnTest(v, cal, now, date))
  {
    var located := LocationFiltered(TimeFiltered(data, v, cal, now), v.locationFilter);
    var key := DateKey(v.sortDirection);
    var k := if v.sortDirection == Desc then -date else date;
    SortByStable(located, key, k);
    FilterSame(FilteredData(data, v, cal, now), DateTest(date), KeyTest(key, k));
    FilterSame(located, DateTest(date), KeyTest(key, k));
    FilteredBeforeSort(data, v, cal, now);
    FilterCompose(data, ShownTest(v, cal, now), DateTest(date), ShownOnTest(v, cal, now, date));
  }

  // ---- uniqueLocations ----

  function Locations(data: seq<Tic>): seq<string>
  {
    seq(|data|, i requires 0 <= i < |data| => data[i].location)
  }

  /** `Array.from(new Set(ticData.map(t => t.location)))`. */
  function UniqueLocations(data: seq<Tic>): seq<string>
  {
    Dedup(Locations(data))
  }

  /** Each location of the history appears once, and nothing else does. */
  lemma UniqueLocationsSpec(data: seq<Tic>)
    ensures NoDup(UniqueLocations(data))
    ensures forall l :: l in UniqueLocations(data) <==> exists i :: 0 <= i < |data| && data[i].location == l
  {
    var locs := Locations(data);
    DedupSpec(locs);
    forall l
      ensures l in locs <==> exists i :: 0 <= i < |data| && data[i].location == l
    {
      if l in locs {
        var i :| 0 <= i < |locs| && locs[i] == l;
        assert data[i].location == l;
      }
      if exists i :: 0 <= i < |data| && data[i].location == l {
        var i :| 0 <= i < |data| && data[i].location == l;
        assert locs[i] == l;
      }
    }
  }

  /** The locations are listed in the order of the first tic recorded at each. */
  lemma UniqueLocationsOrder(data: seq<Tic>)
    ensures forall l :: l in UniqueLocations(data) ==> l in Locations(data)
    ensures var u := UniqueLocations(data);
            forall i, j :: 0 <= i < j < |u| ==> FirstAt(Locations(data), u[i]) < FirstAt(Locations(data), u[j])
  {
    DedupOrder(Locations(data));
  }

  // ---- the buttons ----

  function NotEqualTest(location: string): string -> bool
  {
    (x: string) => x != location
  }

  /** The update passed to setLocationFilter: drop every copy if present, append otherwise. */
  function ToggledLocations(prev: seq<string>, location: string): seq<string>
  {
    if location in prev then Filter(prev, NotEqualTest(location)) else prev + [location]
  }

  function ToggleLocation(v: ViewState, location: string): (r: ViewState)
  {
    v.(locationFilter := ToggledLocations(v.locationFilter, location))
  }

  /** Toggling flips the location's membership and leaves every other location as it was. */
  lemma ToggleMembers(prev: seq<string>, location: string)
    ensures location in ToggledLocations(prev, location) <==> location !in prev
    ensures forall x :: x != location ==> (x in ToggledLocations(prev, location) <==> x in prev)
  {
    if location in prev {
      FilterMembers(prev, NotEqualTest(location));
    }
  }

  /** Toggling twice gives back the same set of locations, and the same list when the location was absent. */
  lemma {:induction false} ToggleTwice(prev: seq<string>, location: string)
    ensures forall x :: x in ToggledLocations(ToggledLocations(prev, location), location) <==> x in prev
    ensures location !in prev ==> ToggledLocations(ToggledLocations(prev, location), location) == prev
  {
    var once := ToggledLocations(prev, location);
    ToggleMembers(prev, location);
    ToggleMembers(once, location);
    if location !in prev {
      FilterAppend(prev, [location], NotEqualTest(location));
      FilterAll(prev, NotEqualTest(location));
    }
  }

  /** A list built only by toggling never holds a location twice. */
  lemma {:induction false} ToggleKeepsNoDup(prev: seq<string>, location: string)
    requires NoDup(prev)
    ensures NoDup(ToggledLocations(prev, location))
  {
    if location in prev {
      FilterKeepsNoDup(prev, NotEqualTest(location));
    }
  }

  lemma {:induction false} FilterKeepsNoDup<T>(s: seq<T>, p: T -> bool)
    requires NoDup(s)
    ensures NoDup(Filter(s, p))
  {
    if |s| > 0 {
      FilterKeepsNoDup(s[1..], p);
      FilterMembers(s[1..], p);
      assert s[0] !in s[1..];
    }
  }

  function ToggleSort(v: ViewState): ViewState
  {
    v.(sortDirection := if v.sortDirection == Desc then Asc else Desc)
  }

  /** Pressing the sort button twice restores the state. */
  lemma ToggleSortTwice(v: ViewState)
    ensures ToggleSort(ToggleSort(v)) == v
    ensures ToggleSort(v).sortDirection != v.sortDirection
  {
  }

  function ResetFilters(v: ViewState): ViewState
  {
    v.(timeRange := All, specificDate := None, locationFilter := [], sortDirection := Desc)
  }

  /** After a reset the table is the whole history, newest first; the chart mode is kept. */
  lemma ResetShowsAll(data: seq<Tic>, v: ViewState, cal: Calendar, now: int)
    ensures ResetFilters(v) == Initial.(chartModeIndex := v.chartModeIndex)
    ensures var r := FilteredData(data, ResetFilters(v), cal, now);
            && multiset(r) == multiset(data)
            && forall i, j :: 0 <= i < j < |r| ==> r[i].date >= r[j].date
  {
    AllIsPermutation(data, ResetFilters(v), cal, now);
    FilteredSorted(data, ResetFilters(v), cal, now);
  }

  // ---- chart mode ----

  predicate ValidView(v: ViewState)
  {
    v.chartModeIndex < |ChartModes|
  }

  function CurrentChartMode(v: ViewState): ChartMode
    requires ValidView(v)
  {
    ChartModes[v.chartModeIndex]
  }

  function PrevMode(v: ViewState): ViewState
  {
    v.(chartModeIndex := (v.chartModeIndex + |ChartModes| - 1) % |ChartModes|)
  }

  function NextMode(v: ViewState): ViewState
  {
    v.(chartModeIndex := (v.chartModeIndex + 1) % |ChartModes|)
  }

  /** Both arrows keep the index in range, from any starting index, and undo each other. */
  lemma ModeArrows(v: ViewState)
    ensures ValidView(PrevMode(v)) && ValidView(NextMode(v))
    ensures ValidView(v) ==> PrevMode(NextMode(v)) == v && NextMode(PrevMode(v)) == v
  {
  }

  /** Three presses of the same arrow come back to the same mode. */
  lemma ModeCycle(v: ViewState)
    requires ValidView(v)
    ensures NextMode(NextMode(NextMode(v))) == v
    ensures PrevMode(PrevMode(PrevMode(v))) == v
    ensures CurrentChartMode(NextMode(v)) != CurrentChartMode(v)
  {
  }
}
