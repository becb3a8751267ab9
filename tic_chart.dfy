/**
 * The chart of the tic-history screen (src/TicData.js): the table's tics grouped
 * by time and location, the matrix handed to the chart, and the y-axis bound.
 */
module TicChart {
  import opened Seqs
  import opened TicFilters

  // ---- grouping keys and buckets ----

  /** A chart row's time: the `timeOfDay` text when grouping today's tics, the date otherwise. */
  datatype TimeKey = ByTimeOfDay(timeOfDay: string) | ByDate(date: int)

  function KeyOf(byTimeOfDay: bool, t: Tic): TimeKey
  {
    if byTimeOfDay then ByTimeOfDay(t.timeOfDay) else ByDate(t.date)
  }

  predicate InBucket(byTimeOfDay: bool, k: TimeKey, location: string, t: Tic)
  {
    KeyOf(byTimeOfDay, t) == k && t.location == location
  }

  /** The number of tics in the bucket (k, location). */
  function CountOf(data: seq<Tic>, byTimeOfDay: bool, k: TimeKey, location: string): nat
  {
    if |data| == 0 then 0
    else
      CountOf(data[..|data| - 1], byTimeOfDay, k, location)
      + if InBucket(byTimeOfDay, k, location, data[|data| - 1]) then 1 else 0
  }

  /** The total intensity of the tics in the bucket (k, location). */
  function SumOf(data: seq<Tic>, byTimeOfDay: bool, k: TimeKey, location: string): real
  {
    if |data| == 0 then 0.0
    else
      SumOf(data[..|data| - 1], byTimeOfDay, k, location)
      + if InBucket(byTimeOfDay, k, location, data[|data| - 1]) then data[|data| - 1].intensity else 0.0
  }

  /** `{ sum, count }` for one location under one key. */
  datatype Bucket = Bucket(sum: real, count: nat)

  /** `grouped[key]`: its locations in insertion order, and their buckets. */
  datatype Group = Group(locations: seq<string>, buckets: map<string, Bucket>)

  /** One processed row `{ timeKey, [location]: value }`, its locations in insertion order. */
  datatype Row = Row(timeKey: TimeKey, locations: seq<string>, values: map<string, real>)

  /** What the current chart mode plots for one bucket. */
  function Value(mode: ChartMode, b: Bucket): real
    requires b.count > 0
  {
    match mode
    case Avg => b.sum / (b.count as real)
    case Total => b.sum
    case Count => b.count as real
  }

  function RowOf(k: TimeKey, g: Group, mode: ChartMode): Row
    requires forall l :: l in g.buckets ==> g.buckets[l].count > 0
  {
    Row(k, g.locations, map l | l in g.buckets :: Value(mode, g.buckets[l]))
  }

  /** The instant a row is sorted by: the clock time of a time of day, or the date itself. */
  function TimeOf(clock: string -> int, k: TimeKey): int
  {
    match k
    case ByTimeOfDay(s) => clock(s)
    case ByDate(d) => d
  }

  function RowTime(clock: string -> int): Row -> int
  {
    (r: Row) => TimeOf(clock, r.timeKey)
  }

  function RowKey(): Row -> TimeKey
  {
    (r: Row) => r.timeKey
  }

  // ---- processChartData ----

  /** The key order lists each key of `grouped` once (the order Object.entries walks them in). */
  ghost predicate KeysListed(grouped: map<TimeKey, Group>, keyOrder: seq<TimeKey>)
  {
    NoDup(keyOrder) && forall k :: k in grouped <==> k in keyOrder
  }

  /** Each group lists each of its locations once, and has at least one. */
  ghost predicate GroupsListed(grouped: map<TimeKey, Group>)
  {
    forall k :: k in grouped ==>
      && |grouped[k].locations| > 0
      && NoDup(grouped[k].locations)
      && forall l :: l in grouped[k].buckets <==> l in grouped[k].locations
  }

  /** Each bucket holds the total intensity and the number of its tics. */
  ghost predicate BucketsExact(prefix: seq<Tic>, byTimeOfDay: bool, grouped: map<TimeKey, Group>)
  {
    forall k, l :: k in grouped && l in grouped[k].buckets ==>
      grouped[k].buckets[l] == Bucket(SumOf(prefix, byTimeOfDay, k, l), CountOf(prefix, byTimeOfDay, k, l))
  }

  /** A bucket exists exactly when some tic falls into it. */
  ghost predicate BucketsPresent(prefix: seq<Tic>, byTimeOfDay: bool, grouped: map<TimeKey, Group>)
  {
    forall k, l :: CountOf(prefix, byTimeOfDay, k, l) > 0 <==> k in grouped && l in grouped[k].buckets
  }

  /** What `grouped` and its key order hold once the tics of `prefix` are in. */
  ghost predicate GroupedBy(prefix: seq<Tic>, byTimeOfDay: bool, grouped: map<TimeKey, Group>, keyOrder: seq<TimeKey>)
  {
    && KeysListed(grouped, keyOrder)
    && GroupsListed(grouped)
    && BucketsExact(prefix, byTimeOfDay, grouped)
    && BucketsPresent(prefix, byTimeOfDay, grouped)
  }

  /** The key of each tic, in tic order. */
  function Keys(data: seq<Tic>, byTimeOfDay: bool): seq<TimeKey>
  {
    seq(|data|, i requires 0 <= i < |data| => KeyOf(byTimeOfDay, data[i]))
  }

  /** The locations of the tics under key `k`, in tic order. */
  function LocationsUnder(data: seq<Tic>, byTimeOfDay: bool, k: TimeKey): seq<string>
  {
    if |data| == 0 then []
    else
      LocationsUnder(data[..|data| - 1], byTimeOfDay, k)
      + if KeyOf(byTimeOfDay, data[|data| - 1]) == k then [data[|data| - 1].location] else []
  }

  /** The order JavaScript's objects keep these keys in, read as insertion order: that of their first tic. */
  ghost predicate KeysInOrder(prefix: seq<Tic>, byTimeOfDay: bool, keyOrder: seq<TimeKey>)
  {
    keyOrder == Dedup(Keys(prefix, byTimeOfDay))
  }

  /** Each group lists its locations in the order of their first tic under its key. */
  ghost predicate LocationsInOrder(prefix: seq<Tic>, byTimeOfDay: bool, grouped: map<TimeKey, Group>)
  {
    forall k :: k in grouped ==> grouped[k].locations == Dedup(LocationsUnder(prefix, byTimeOfDay, k))
  }

  ghost predicate InsertionOrdered(prefix: seq<Tic>, byTimeOfDay: bool, grouped: map<TimeKey, Group>,
                                   keyOrder: seq<TimeKey>)
  {
    KeysInOrder(prefix, byTimeOfDay, keyOrder) && LocationsInOrder(prefix, byTimeOfDay, grouped)
  }

  /** A key no tic carries has no locations. */
  lemma {:induction false} LocationsUnderAbsent(data: seq<Tic>, byTimeOfDay: bool, k: TimeKey)
    requires forall i :: 0 <= i < |data| ==> KeyOf(byTimeOfDay, data[i]) != k
    ensures LocationsUnder(data, byTimeOfDay, k) == []
  {
    if |data| > 0 {
      LocationsUnderAbsent(data[..|data| - 1], byTimeOfDay, k);
    }
  }

  lemma KeyOrderStep(prefix: seq<Tic>, byTimeOfDay: bool, grouped: map<TimeKey, Group>, keyOrder: seq<TimeKey>, t: Tic)
    requires KeysListed(grouped, keyOrder) && KeysInOrder(prefix, byTimeOfDay, keyOrder)
    ensures KeysInOrder(prefix + [t], byTimeOfDay, AddToKeyOrder(keyOrder, grouped, byTimeOfDay, t))
  {
    var keys := Keys(prefix, byTimeOfDay);
    assert Keys(prefix + [t], byTimeOfDay) == keys + [KeyOf(byTimeOfDay, t)];
    DedupSnoc(keys, KeyOf(byTimeOfDay, t));
  }

  lemma LocationsOrderStep(prefix: seq<Tic>, byTimeOfDay: bool, grouped: map<TimeKey, Group>, t: Tic)
    requires GroupsListed(grouped) && LocationsInOrder(prefix, byTimeOfDay, grouped)
    requires KeyOf(byTimeOfDay, t) !in grouped ==> LocationsUnder(prefix, byTimeOfDay, KeyOf(byTimeOfDay, t)) == []
    ensures LocationsInOrder(prefix + [t], byTimeOfDay, AddToGrouped(grouped, byTimeOfDay, t))
  {
    var key := KeyOf(byTimeOfDay, t);
    var grouped' := AddToGrouped(grouped, byTimeOfDay, t);
    assert (prefix + [t])[..|prefix|] == prefix;
    forall k | k in grouped'
      ensures grouped'[k].locations == Dedup(LocationsUnder(prefix + [t], byTimeOfDay, k))
    {
      var before := LocationsUnder(prefix, byTimeOfDay, k);
      if k == key {
        var g := if key in grouped then grouped[key] else Group([], map[]);
        assert g.locations == Dedup(before);
        assert t.location in g.buckets <==> t.location in g.locations;
        assert grouped'[k] == AddToGroup(g, t);
        assert LocationsUnder(prefix + [t], byTimeOfDay, k) == before + [t.location];
        DedupSnoc(before, t.location);
      } else {
        assert LocationsUnder(prefix + [t], byTimeOfDay, k) == before + [];
        assert before + [] == before;
        assert grouped'[k] == grouped[k];
      }
    }
  }

  /** One pass of the forEach keeps keys and locations in insertion order. */
  lemma OrderStep(prefix: seq<Tic>, byTimeOfDay: bool, grouped: map<TimeKey, Group>, keyOrder: seq<TimeKey>, t: Tic)
    requires GroupedBy(prefix, byTimeOfDay, grouped, keyOrder)
    requires InsertionOrdered(prefix, byTimeOfDay, grouped, keyOrder)
    ensures InsertionOrdered(prefix + [t], byTimeOfDay, AddToGrouped(grouped, byTimeOfDay, t),
                             AddToKeyOrder(keyOrder, grouped, byTimeOfDay, t))
  {
    var key := KeyOf(byTimeOfDay, t);
    if key !in grouped {
      var keys := Keys(prefix, byTimeOfDay);
      DedupSpec(keys);
      forall i | 0 <= i < |prefix|
        ensures KeyOf(byTimeOfDay, prefix[i]) != key
      {
        assert keys[i] == KeyOf(byTimeOfDay, prefix[i]);
      }
      LocationsUnderAbsent(prefix, byTimeOfDay, key);
    }
    KeyOrderStep(prefix, byTimeOfDay, grouped, keyOrder, t);
    LocationsOrderStep(prefix, byTimeOfDay, grouped, t);
  }

  lemma AppendTic(prefix: seq<Tic>, t: Tic, byTimeOfDay: bool)
    ensures forall k, l :: CountOf(prefix + [t], byTimeOfDay, k, l)
                           == CountOf(prefix, byTimeOfDay, k, l) + if InBucket(byTimeOfDay, k, l, t) then 1 else 0
    ensures forall k, l :: SumOf(prefix + [t], byTimeOfDay, k, l)
                           == SumOf(prefix, byTimeOfDay, k, l) + if InBucket(byTimeOfDay, k, l, t) then t.intensity else 0.0
  {
    assert (prefix + [t])[..|prefix|] == prefix;
  }

  /**
   * `grouped[key]` after one tic: a zero bucket for a new location, then its
   * sum grows by the intensity and its count by one.
   */
  function AddToGroup(g: Group, t: Tic): Group
  {
    var g1 := if t.location in g.buckets then g
              else Group(g.locations + [t.location], g.buckets[t.location := Bucket(0.0, 0)]);
    var b := g1.buckets[t.location];
    g1.(buckets := g1.buckets[t.location := Bucket(b.sum + t.intensity, b.count + 1)])
  }

  function AddToGrouped(grouped: map<TimeKey, Group>, byTimeOfDay: bool, t: Tic): map<TimeKey, Group>
  {
    var key := KeyOf(byTimeOfDay, t);
    var g := if key in grouped then grouped[key] else Group([], map[]);
    grouped[key := AddToGroup(g, t)]
  }

  function AddToKeyOrder(keyOrder: seq<TimeKey>, grouped: map<TimeKey, Group>, byTimeOfDay: bool, t: Tic): seq<TimeKey>
  {
    var key := KeyOf(byTimeOfDay, t);
    if key in grouped then keyOrder else keyOrder + [key]
  }

  /** A bucket no tic fell into has summed nothing. */
  lemma {:induction false} EmptyBucket(data: seq<Tic>, byTimeOfDay: bool, k: TimeKey, l: string)
    requires CountOf(data, byTimeOfDay, k, l) == 0
    ensures SumOf(data, byTimeOfDay, k, l) == 0.0
  {
    if |data| > 0 {
      EmptyBucket(data[..|data| - 1], byTimeOfDay, k, l);
    }
  }

  lemma KeysStep(grouped: map<TimeKey, Group>, keyOrder: seq<TimeKey>, byTimeOfDay: bool, t: Tic)
    requires KeysListed(grouped, keyOrder)
    ensures KeysListed(AddToGrouped(grouped, byTimeOfDay, t), AddToKeyOrder(keyOrder, grouped, byTimeOfDay, t))
  {
    var key := KeyOf(byTimeOfDay, t);
    if key !in grouped {
      var keyOrder' := keyOrder + [key];
      assert forall k :: k in keyOrder' <==> k in keyOrder || k == key;
    }
  }

  lemma GroupsStep(grouped: map<TimeKey, Group>, byTimeOfDay: bool, t: Tic)
    requires GroupsListed(grouped)
    ensures GroupsListed(AddToGrouped(grouped, byTimeOfDay, t))
  {
    var key := KeyOf(byTimeOfDay, t);
    var g := if key in grouped then grouped[key] else Group([], map[]);
    if t.location !in g.buckets {
      var locations' := g.locations + [t.location];
      assert t.location !in g.locations;
      assert forall l :: l in locations' <==> l in g.locations || l == t.location;
    }
  }

  lemma BucketsStep(prefix: seq<Tic>, byTimeOfDay: bool, grouped: map<TimeKey, Group>, t: Tic)
    requires BucketsExact(prefix, byTimeOfDay, grouped) && BucketsPresent(prefix, byTimeOfDay, grouped)
    ensures BucketsExact(prefix + [t], byTimeOfDay, AddToGrouped(grouped, byTimeOfDay, t))
    ensures BucketsPresent(prefix + [t], byTimeOfDay, AddToGrouped(grouped, byTimeOfDay, t))
  {
    var key := KeyOf(byTimeOfDay, t);
    AppendTic(prefix, t, byTimeOfDay);
    if CountOf(prefix, byTimeOfDay, key, t.location) == 0 {
      EmptyBucket(prefix, byTimeOfDay, key, t.location);
    }
    assert forall k, l :: InBucket(byTimeOfDay, k, l, t) <==> k == key && l == t.location;
  }

  /** One pass of the forEach keeps the grouping faithful to the tics seen so far. */
  lemma GroupStep(prefix: seq<Tic>, byTimeOfDay: bool, grouped: map<TimeKey, Group>, keyOrder: seq<TimeKey>, t: Tic)
    requires GroupedBy(prefix, byTimeOfDay, grouped, keyOrder)
    ensures GroupedBy(prefix + [t], byTimeOfDay, AddToGrouped(grouped, byTimeOfDay, t),
                      AddToKeyOrder(keyOrder, grouped, byTimeOfDay, t))
  {
    KeysStep(grouped, keyOrder, byTimeOfDay, t);
    GroupsStep(grouped, byTimeOfDay, t);
    BucketsStep(prefix, byTimeOfDay, grouped, t);
  }

  /** Every tic lands in a bucket that is not empty. */
  lemma {:induction false} CountOfMember(data: seq<Tic>, byTimeOfDay: bool, t: Tic)
    requires t in data
    ensures CountOf(data, byTimeOfDay, KeyOf(byTimeOfDay, t), t.location) > 0
  {
    var init := data[..|data| - 1];
    if t != data[|data| - 1] {
      assert data == init + [data[|data| - 1]];
      CountOfMember(init, byTimeOfDay, t);
    }
  }

  /**
   * A chart row stands for one key: it lists, once each, the locations with tics
   * under that key, and for each plots the current mode's value of its bucket.
   */
  ghost predicate RowFor(data: seq<Tic>, byTimeOfDay: bool, mode: ChartMode, r: Row)
  {
    && |r.locations| > 0
    && NoDup(r.locations)
    && r.locations == Dedup(LocationsUnder(data, byTimeOfDay, r.timeKey))
    && (forall l :: l in r.values <==> l in r.locations)
    && (forall l :: l in r.values <==> CountOf(data, byTimeOfDay, r.timeKey, l) > 0)
    && forall l :: l in r.values ==>
         r.values[l] == Value(mode, Bucket(SumOf(data, byTimeOfDay, r.timeKey, l), CountOf(data, byTimeOfDay, r.timeKey, l)))
  }

  lemma PrefixStep(data: seq<Tic>, i: nat)
    requires i < |data|
    ensures data[..i + 1] == data[..i] + [data[i]]
  {
  }

  /** The forEach over the tics: fills `grouped`, recording keys in the order they first appear. */
  method GroupTics(data: seq<Tic>, byTimeOfDay: bool) returns (grouped: map<TimeKey, Group>, keyOrder: seq<TimeKey>)
    ensures GroupedBy(data, byTimeOfDay, grouped, keyOrder)
    ensures keyOrder == Dedup(Keys(data, byTimeOfDay))
    ensures forall k :: k in grouped ==> grouped[k].locations == Dedup(LocationsUnder(data, byTimeOfDay, k))
  {
    grouped := map[];
    keyOrder := [];
    var i := 0;
    while i < |data|
      invariant 0 <= i <= |data|
      invariant GroupedBy(data[..i], byTimeOfDay, grouped, keyOrder)
      invariant InsertionOrdered(data[..i], byTimeOfDay, grouped, keyOrder)
    {
      var t := data[i];
      PrefixStep(data, i);
      GroupStep(data[..i], byTimeOfDay, grouped, keyOrder, t);
      OrderStep(data[..i], byTimeOfDay, grouped, keyOrder, t);
      // `if (!grouped[key]) grouped[key] = {}`, then the bucket's creation and update
      grouped, keyOrder := AddToGrouped(grouped, byTimeOfDay, t), AddToKeyOrder(keyOrder, grouped, byTimeOfDay, t);
      i := i + 1;
    }
    assert data[..i] == data;
  }

  /** The Object.entries map: one row per key, in key order. */
  method BuildRows(data: seq<Tic>, byTimeOfDay: bool, grouped: map<TimeKey, Group>, keyOrder: seq<TimeKey>,
                   mode: ChartMode) returns (unsorted: seq<Row>)
    requires GroupedBy(data, byTimeOfDay, grouped, keyOrder)
    requires InsertionOrdered(data, byTimeOfDay, grouped, keyOrder)
    ensures |unsorted| == |Dedup(Keys(data, byTimeOfDay))|
    ensures forall m :: 0 <= m < |unsorted| ==> unsorted[m].timeKey == Dedup(Keys(data, byTimeOfDay))[m]
    ensures DistinctBy(unsorted, RowKey())
    ensures forall r :: r in unsorted ==> RowFor(data, byTimeOfDay, mode, r)
    ensures forall t :: t in data ==> exists r :: r in unsorted && r.timeKey == KeyOf(byTimeOfDay, t)
  {
    assert forall k, l :: k in grouped && l in grouped[k].buckets ==> grouped[k].buckets[l].count > 0;
    unsorted := [];
    var j := 0;
    while j < |keyOrder|
      invariant 0 <= j <= |keyOrder|
      invariant |unsorted| == j
      invariant forall m :: 0 <= m < j ==> unsorted[m] == RowOf(keyOrder[m], grouped[keyOrder[m]], mode)
    {
      var k := keyOrder[j];
      unsorted := unsorted + [RowOf(k, grouped[k], mode)];
      j := j + 1;
    }
    RowsFromGroups(data, byTimeOfDay, grouped, keyOrder, mode, unsorted);
  }

  /**
   * Groups the tics by (key, location), summing intensities and counting tics,
   * then turns each key into a row and sorts the rows by time.
   */
  method ProcessChartData(data: seq<Tic>, range: TimeRange, mode: ChartMode, clock: string -> int)
    returns (rows: seq<Row>)
    ensures forall i, j :: 0 <= i < j < |rows| ==> rows[i].timeKey != rows[j].timeKey
    ensures forall i, j :: 0 <= i < j < |rows| ==> TimeOf(clock, rows[i].timeKey) <= TimeOf(clock, rows[j].timeKey)
    ensures forall t :: t in data ==> exists r :: r in rows && r.timeKey == KeyOf(range == Today, t)
    ensures forall r :: r in rows ==> RowFor(data, range == Today, mode, r)
  {
    var byTimeOfDay := range == Today;
    var grouped, keyOrder := GroupTics(data, byTimeOfDay);
    var unsorted := BuildRows(data, byTimeOfDay, grouped, keyOrder, mode);
    rows := SortBy(unsorted, RowTime(clock));
    SortedRows(data, byTimeOfDay, mode, clock, unsorted, rows);
  }

  /** The rows built from a finished grouping, before sorting: one per key, covering every tic. */
  lemma RowsFromGroups(data: seq<Tic>, byTimeOfDay: bool, grouped: map<TimeKey, Group>, keyOrder: seq<TimeKey>,
                       mode: ChartMode, unsorted: seq<Row>)
    requires GroupedBy(data, byTimeOfDay, grouped, keyOrder)
    requires InsertionOrdered(data, byTimeOfDay, grouped, keyOrder)
    requires |unsorted| == |keyOrder|
    requires forall k, l :: k in grouped && l in grouped[k].buckets ==> grouped[k].buckets[l].count > 0
    requires forall m :: 0 <= m < |keyOrder| ==> unsorted[m] == RowOf(keyOrder[m], grouped[keyOrder[m]], mode)
    ensures DistinctBy(unsorted, RowKey())
    ensures forall r :: r in unsorted ==> RowFor(data, byTimeOfDay, mode, r)
    ensures forall t :: t in data ==> exists r :: r in unsorted && r.timeKey == KeyOf(byTimeOfDay, t)
  {
    forall a, b | 0 <= a < b < |unsorted|
      ensures RowKey()(unsorted[a]) != RowKey()(unsorted[b])
    {
      assert unsorted[a].timeKey == keyOrder[a];
    }
    forall r | r in unsorted
      ensures RowFor(data, byTimeOfDay, mode, r)
    {
      var m :| 0 <= m < |unsorted| && unsorted[m] == r;
      assert r.timeKey == keyOrder[m];
    }
    forall t | t in data
      ensures exists r :: r in unsorted && r.timeKey == KeyOf(byTimeOfDay, t)
    {
      CountOfMember(data, byTimeOfDay, t);
      var m :| 0 <= m < |keyOrder| && keyOrder[m] == KeyOf(byTimeOfDay, t);
      assert unsorted[m].timeKey == keyOrder[m];
    }
  }

  /** Sorting the rows by time keeps them, each key still once, and puts them in time order. */
  lemma SortedRows(data: seq<Tic>, byTimeOfDay: bool, mode: ChartMode, clock: string -> int, unsorted: seq<Row>,
                   rows: seq<Row>)
    requires rows == SortBy(unsorted, RowTime(clock))
    requires DistinctBy(unsorted, RowKey())
    requires forall r :: r in unsorted ==> RowFor(data, byTimeOfDay, mode, r)
    requires forall t :: t in data ==> exists r :: r in unsorted && r.timeKey == KeyOf(byTimeOfDay, t)
    ensures forall i, j :: 0 <= i < j < |rows| ==> rows[i].timeKey != rows[j].timeKey
    ensures forall i, j :: 0 <= i < j < |rows| ==> TimeOf(clock, rows[i].timeKey) <= TimeOf(clock, rows[j].timeKey)
    ensures forall t :: t in data ==> exists r :: r in rows && r.timeKey == KeyOf(byTimeOfDay, t)
    ensures forall r :: r in rows ==> RowFor(data, byTimeOfDay, mode, r)
  {
    SortBySorted(unsorted, RowTime(clock));
    SortByDistinct(unsorted, RowTime(clock), RowKey());
    SortByMembers(unsorted, RowTime(clock));
    forall i, j | 0 <= i < j < |rows|
      ensures rows[i].timeKey != rows[j].timeKey
      ensures TimeOf(clock, rows[i].timeKey) <= TimeOf(clock, rows[j].timeKey)
    {
      assert RowKey()(rows[i]) != RowKey()(rows[j]);
      assert RowTime(clock)(rows[i]) <= RowTime(clock)(rows[j]);
    }
    forall t | t in data
      ensures exists r :: r in rows && r.timeKey == KeyOf(byTimeOfDay, t)
    {
      var r :| r in unsorted && r.timeKey == KeyOf(byTimeOfDay, t);
      assert r in rows;
    }
  }

  // ---- allLocationsInChart ----

  /** Every row's locations, row after row. */
  function RowLocations(rows: seq<Row>): seq<string>
  {
    if |rows| == 0 then [] else RowLocations(rows[..|rows| - 1]) + rows[|rows| - 1].locations
  }

  /** The chart's columns: each location of any row, once, in order of first appearance. */
  function AllLocationsInChart(rows: seq<Row>): seq<string>
  {
    Dedup(RowLocations(rows))
  }

  lemma {:induction false} RowLocationsMembers(rows: seq<Row>)
    ensures forall l :: l in RowLocations(rows) <==> exists i :: 0 <= i < |rows| && l in rows[i].locations
  {
    if |rows| > 0 {
      var init := rows[..|rows| - 1];
      RowLocationsMembers(init);
      forall l | exists i :: 0 <= i < |rows| && l in rows[i].locations
        ensures l in RowLocations(rows)
      {
        var i :| 0 <= i < |rows| && l in rows[i].locations;
        if i < |rows| - 1 {
          assert init[i] == rows[i];
        }
      }
    }
  }

  /** No column is repeated, and the columns are exactly the rows' locations. */
  lemma AllLocationsSpec(rows: seq<Row>)
    ensures NoDup(AllLocationsInChart(rows))
    ensures forall l :: l in AllLocationsInChart(rows) <==> exists i :: 0 <= i < |rows| && l in rows[i].locations
  {
    RowLocationsMembers(rows);
    DedupSpec(RowLocations(rows));
  }

  /** The columns come in the order in which the rows, read in turn, first name each location. */
  lemma AllLocationsOrder(rows: seq<Row>)
    ensures forall l :: l in AllLocationsInChart(rows) ==> l in RowLocations(rows)
    ensures var c := AllLocationsInChart(rows);
            forall i, j :: 0 <= i < j < |c| ==> FirstAt(RowLocations(rows), c[i]) < FirstAt(RowLocations(rows), c[j])
  {
    DedupOrder(RowLocations(rows));
  }

  // ---- chartDataForGoogle ----

  /** A cell of the chart matrix: a header label, a row's time key, or a number. */
  datatype Cell = Label(text: string) | TimeCell(key: TimeKey) | Num(n: real)

  /** `entry[loc] || 0`: the row's value, or 0 when the row has none (a stored 0 is 0 either way). */
  function CellValue(r: Row, location: string): real
  {
    if location in r.values then r.values[location] else 0.0
  }

  /** One line of the matrix for row `r`: its time key, then one number per column. */
  predicate IsLine(line: seq<Cell>, r: Row, locations: seq<string>)
  {
    && |line| == |locations| + 1
    && line[0] == TimeCell(r.timeKey)
    && forall j :: 0 <= j < |locations| ==> line[j + 1] == Num(CellValue(r, locations[j]))
  }

  /** The header and one line per row, each line as wide as the header, missing values as 0. */
  method ChartDataForGoogle(rows: seq<Row>, locations: seq<string>) returns (table: seq<seq<Cell>>)
    ensures |rows| == 0 ==> table == [[Label("Time")]]
    ensures |rows| > 0 ==> |table| == |rows| + 1
    ensures |rows| > 0 ==> |table[0]| == |locations| + 1 && table[0][0] == Label("Time")
    ensures |rows| > 0 ==> forall j :: 0 <= j < |locations| ==> table[0][j + 1] == Label(locations[j])
    ensures |rows| > 0 ==> forall i :: 0 <= i < |rows| ==> IsLine(table[i + 1], rows[i], locations)
  {
    if |rows| == 0 {
      return [[Label("Time")]];
    }
    var header := [Label("Time")] + seq(|locations|, j requires 0 <= j < |locations| => Label(locations[j]));
    table := [header];
    var i := 0;
    while i < |rows|
      invariant 0 <= i <= |rows|
      invariant |table| == i + 1 && table[0] == header
      invariant forall m :: 0 <= m < i ==> IsLine(table[m + 1], rows[m], locations)
    {
      var line := [TimeCell(rows[i].timeKey)];
      var j := 0;
      while j < |locations|
        invariant 0 <= j <= |locations|
        invariant |line| == j + 1 && line[0] == TimeCell(rows[i].timeKey)
        invariant forall n :: 0 <= n < j ==> line[n + 1] == Num(CellValue(rows[i], locations[n]))
      {
        line := line + [Num(CellValue(rows[i], locations[j]))];
        j := j + 1;
      }
      assert IsLine(line, rows[i], locations);
      table := table + [line];
      i := i + 1;
    }
  }

  // ---- findMaxValue and the axis ----

  /** `m` is at least every number in the matrix outside its first row and first column. */
  predicate Bounds(table: seq<seq<Cell>>, m: real)
  {
    forall i, j :: 1 <= i < |table| && 1 <= j < |table[i]| && table[i][j].Num? ==> table[i][j].n <= m
  }

  /** The largest number outside the header row and the time column, or 0 if none is larger. */
  method FindMaxValue(table: seq<seq<Cell>>) returns (m: real)
    ensures m >= 0.0
    ensures Bounds(table, m)
    ensures m == 0.0 || exists i, j :: 1 <= i < |table| && 1 <= j < |table[i]| && table[i][j] == Num(m)
  {
    m := 0.0;
    var i := 1;
    while i < |table|
      invariant 1 <= i <= |table| || (|table| == 0 && i == 1)
      invariant m >= 0.0
      invariant forall a, b :: 1 <= a < i && a < |table| && 1 <= b < |table[a]| && table[a][b].Num? ==> table[a][b].n <= m
      invariant m == 0.0 || exists a, b :: 1 <= a < |table| && 1 <= b < |table[a]| && table[a][b] == Num(m)
    {
      var j := 1;
      while j < |table[i]|
        invariant 1 <= j <= |table[i]| || (|table[i]| == 0 && j == 1)
        invariant m >= 0.0
        invariant forall a, b :: 1 <= a < i && 1 <= b < |table[a]| && table[a][b].Num? ==> table[a][b].n <= m
        invariant forall b :: 1 <= b < j && b < |table[i]| && table[i][b].Num? ==> table[i][b].n <= m
        invariant m == 0.0 || exists a, b :: 1 <= a < |table| && 1 <= b < |table[a]| && table[a][b] == Num(m)
      {
        var v := table[i][j];
        if v.Num? && v.n > m {
          m := v.n;
        }
        j := j + 1;
      }
      i := i + 1;
    }
  }

  function Max(a: real, b: real): real
  {
    if a >= b then a else b
  }

  /** The top of the y axis: fixed at 10 for averages, otherwise 5 above the largest value. */
  function ChartMax(mode: ChartMode, maxValue: real): real
  {
    if mode == Avg then 10.0 else Max(maxValue + 5.0, 5.0)
  }

  /** Totals and counts always fit under the axis, with at least 5 to spare. */
  lemma AxisAboveData(table: seq<seq<Cell>>, m: real, mode: ChartMode)
    requires Bounds(table, m)
    requires mode != Avg
    ensures ChartMax(mode, m) >= 5.0
    ensures forall i, j :: 1 <= i < |table| && 1 <= j < |table[i]| && table[i][j].Num? ==>
              table[i][j].n + 5.0 <= ChartMax(mode, m)
  {
  }

  /** With intensities between 0 and 10 the bucket sums stay between 0 and 10 per tic. */
  lemma {:induction false} SumWithinScale(data: seq<Tic>, byTimeOfDay: bool, k: TimeKey, l: string)
    requires forall t :: t in data ==> 0.0 <= t.intensity <= 10.0
    ensures 0.0 <= SumOf(data, byTimeOfDay, k, l) <= 10.0 * (CountOf(data, byTimeOfDay, k, l) as real)
  {
    if |data| > 0 {
      var init := data[..|data| - 1];
      assert forall t :: t in init ==> t in data;
      assert data[|data| - 1] in data;
      SumWithinScale(init, byTimeOfDay, k, l);
    }
  }

  /** With intensities between 0 and 10, every average fits under the fixed axis of 10. */
  lemma AverageWithinAxis(data: seq<Tic>, byTimeOfDay: bool, k: TimeKey, l: string)
    requires forall t :: t in data ==> 0.0 <= t.intensity <= 10.0
    requires CountOf(data, byTimeOfDay, k, l) > 0
    ensures 0.0 <= Value(Avg, Bucket(SumOf(data, byTimeOfDay, k, l), CountOf(data, byTimeOfDay, k, l))) <= ChartMax(Avg, 0.0)
  {
    SumWithinScale(data, byTimeOfDay, k, l);
    var s := SumOf(data, byTimeOfDay, k, l);
    var c := CountOf(data, byTimeOfDay, k, l) as real;
    var avg := s / c;
    assert avg * c == s;
    assert (10.0 - avg) * c == 10.0 * c - s;
    if avg < 0.0 { assert false; }
    if avg > 10.0 { assert false; }
  }

  // ---- the bucket functions against filter ----

  function BucketTest(byTimeOfDay: bool, k: TimeKey, location: string): Tic -> bool
  {
    (t: Tic) => InBucket(byTimeOfDay, k, location, t)
  }

  function TotalIntensity(s: seq<Tic>): real
  {
    if |s| == 0 then 0.0 else s[0].intensity + TotalIntensity(s[1..])
  }

  lemma {:induction false} TotalIntensityAppend(a: seq<Tic>, b: seq<Tic>)
    ensures TotalIntensity(a + b) == TotalIntensity(a) + TotalIntensity(b)
  {
    if |a| > 0 {
      assert (a + b)[1..] == a[1..] + b;
      TotalIntensityAppend(a[1..], b);
    } else {
      assert a + b == b;
    }
  }

  /** A bucket holds as many tics, and as much intensity, as filtering the tics by that bucket gives. */
  lemma {:induction false} BucketIsFilter(data: seq<Tic>, byTimeOfDay: bool, k: TimeKey, l: string)
    ensures CountOf(data, byTimeOfDay, k, l) == |Filter(data, BucketTest(byTimeOfDay, k, l))|
    ensures SumOf(data, byTimeOfDay, k, l) == TotalIntensity(Filter(data, BucketTest(byTimeOfDay, k, l)))
  {
    if |data| > 0 {
      var init := data[..|data| - 1];
      var last := data[|data| - 1];
      var p := BucketTest(byTimeOfDay, k, l);
      BucketIsFilter(init, byTimeOfDay, k, l);
      assert data == init + [last];
      FilterAppend(init, [last], p);
      assert Filter([last], p) == if p(last) then [last] else [];
      TotalIntensityAppend(Filter(init, p), Filter([last], p));
    }
  }
}
