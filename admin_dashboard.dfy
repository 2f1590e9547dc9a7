// The administrator's dashboard heatmap: users counted per region and month,
// the five busiest regions as rows and the requested months as columns.
//
// Each `Map` of the source becomes a sequence of entries in insertion order,
// looked up by key.

module AdminDashboard {
  import opened Js
  import opened Records
  import opened Sorting
  import Summaries

  /** What `normalizeDate` throws for a date string that does not parse. */
  const InvalidDate := "Fecha inv\U{E1}lida"

  /** A month bucket entry: the users of one region that joined in one month. */
  datatype Cell = Cell(month: string, count: nat)

  /** A region's entry of the region map: its month buckets in insertion order. */
  datatype RegionBucket = RegionBucket(region: string, cells: seq<Cell>)

  /** The heatmap handed to the chart. */
  datatype Heatmap = Heatmap(matrix: seq<seq<nat>>, labels: seq<string>)

  /** `monthKey(user.createdAt ?? new Date())` for a date that parses: a missing date
    * counts under the current month. */
  function MonthOf(u: User, now: Instant): string
  {
    match u.createdAt
    case At(t) => MonthKey(t.local)
    case _ => MonthKey(now.local)
  }

  /** The region a user counts under: trimmed, `'Unknown'` when missing or blank. */
  function RegionOf(u: User): string
  {
    Summaries.RegionKey(u.region)
  }

  // ---------------------------------------------------------------- what is counted

  /** The users of a region. */
  function RegionTotal(users: seq<User>, region: string): nat
  {
    if users == [] then 0
    else RegionTotal(users[..|users| - 1], region) + (if RegionOf(users[|users| - 1]) == region then 1 else 0)
  }

  /** The users of a region that joined in a month. */
  function CountIn(users: seq<User>, region: string, month: string, now: Instant): nat
  {
    if users == [] then 0
    else
      var u := users[|users| - 1];
      CountIn(users[..|users| - 1], region, month, now) + (if RegionOf(u) == region && MonthOf(u, now) == month then 1 else 0)
  }

  lemma RegionTotalSnoc(users: seq<User>, u: User, x: string)
    ensures RegionTotal(users + [u], x) == RegionTotal(users, x) + (if RegionOf(u) == x then 1 else 0)
  {
    hide RegionOf, MonthOf, MonthIndex, RegionIndex;
    assert (users + [u])[..|users|] == users;
  }

  lemma CountInSnoc(users: seq<User>, u: User, x: string, m: string, now: Instant)
    ensures CountIn(users + [u], x, m, now) == CountIn(users, x, m, now) + (if RegionOf(u) == x && MonthOf(u, now) == m then 1 else 0)
  {
    hide RegionOf, MonthOf, MonthIndex, RegionIndex;
    assert (users + [u])[..|users|] == users;
  }

  // ---------------------------------------------------------------- the maps

  /** `map.has(month)`: the position of the month's entry, or the length when there is none. */
  function MonthIndex(cells: seq<Cell>, month: string): (k: nat)
    ensures k <= |cells|
    ensures k < |cells| ==> cells[k].month == month
    ensures forall j :: 0 <= j < k ==> cells[j].month != month
  {
    KeyIndex(cells, (c: Cell) => c.month, month)
  }

  /** `regionMap.has(region)`: the position of the region's entry, or the length when there is none. */
  function RegionIndex(bs: seq<RegionBucket>, region: string): (k: nat)
    ensures k <= |bs|
    ensures k < |bs| ==> bs[k].region == region
    ensures forall j :: 0 <= j < k ==> bs[j].region != region
  {
    KeyIndex(bs, (b: RegionBucket) => b.region, region)
  }

  /** `monthBucket.set(month, (monthBucket.get(month) ?? 0) + 1)` */
  function Bump(cells: seq<Cell>, month: string): seq<Cell>
  {
    var k := MonthIndex(cells, month);
    if k < |cells| then cells[k := Cell(month, cells[k].count + 1)] else cells + [Cell(month, 1)]
  }

  /** One user counted: the region gets an empty month map when it has none, then the user's
    * month is bumped in it. */
  function Record(bs: seq<RegionBucket>, region: string, month: string): seq<RegionBucket>
  {
    var k := RegionIndex(bs, region);
    if k < |bs| then bs[k := RegionBucket(region, Bump(bs[k].cells, month))]
    else bs + [RegionBucket(region, Bump([], month))]
  }

  function CountOf(c: Cell): int
  {
    c.count
  }

  ghost predicate DistinctMonths(cells: seq<Cell>)
  {
    forall i, j :: 0 <= i < j < |cells| ==> cells[i].month != cells[j].month
  }

  ghost predicate CountsMatch(cells: seq<Cell>, users: seq<User>, region: string, now: Instant)
  {
    forall i :: 0 <= i < |cells| ==> cells[i].count == CountIn(users, region, cells[i].month, now)
  }

  ghost predicate MonthsMatch(cells: seq<Cell>, users: seq<User>, region: string, now: Instant)
  {
    forall m {:trigger MonthIndex(cells, m)} :: MonthIndex(cells, m) < |cells| <==> CountIn(users, region, m, now) > 0
  }

  /** A region's month map after counting `users`: one entry per month, holding that month's
    * count, an entry for every month with users, and all of them adding up to the region's
    * users. */
  ghost predicate CellsInv(cells: seq<Cell>, users: seq<User>, region: string, now: Instant)
  {
    && DistinctMonths(cells)
    && CountsMatch(cells, users, region, now)
    && MonthsMatch(cells, users, region, now)
    && SumInt(cells, CountOf) == RegionTotal(users, region)
  }

  /** The region map after counting `users`: one entry per region that has users, each
    * holding that region's month map. */
  ghost predicate HeatInv(bs: seq<RegionBucket>, users: seq<User>, now: Instant)
  {
    && (forall i, j :: 0 <= i < j < |bs| ==> bs[i].region != bs[j].region)
    && (forall x {:trigger RegionIndex(bs, x)} :: RegionIndex(bs, x) < |bs| <==> RegionTotal(users, x) > 0)
    && (forall k :: 0 <= k < |bs| ==> CellsInv(bs[k].cells, users, bs[k].region, now))
  }

  lemma CellsUntouched(cells: seq<Cell>, users: seq<User>, u: User, region: string, now: Instant)
    requires CellsInv(cells, users, region, now) && RegionOf(u) != region
    ensures CellsInv(cells, users + [u], region, now)
  {
    hide RegionOf, MonthOf, MonthIndex, RegionIndex;
    RegionTotalSnoc(users, u, region);
    forall m ensures CountIn(users + [u], region, m, now) == CountIn(users, region, m, now) {
      CountInSnoc(users, u, region, m, now);
    }
  }

  lemma BumpKeepsInv(cells: seq<Cell>, users: seq<User>, u: User, now: Instant)
    requires CellsInv(cells, users, RegionOf(u), now)
    ensures CellsInv(Bump(cells, MonthOf(u, now)), users + [u], RegionOf(u), now)
  {
    hide RegionOf, MonthOf, KeyIndex, CountIn, RegionTotal, DistinctMonths, CountsMatch, MonthsMatch;
    var region, month := RegionOf(u), MonthOf(u, now);
    var more := users + [u];
    var k := MonthIndex(cells, month);
    RegionTotalSnoc(users, u, region);
    forall m ensures CountIn(more, region, m, now) == CountIn(users, region, m, now) + (if m == month then 1 else 0) {
      CountInSnoc(users, u, region, m, now);
    }
    if k < |cells| {
      var c := Cell(month, cells[k].count + 1);
      var r := cells[k := c];
      assert Bump(cells, month) == r;
      SumIntUpdate(cells, k, c, CountOf);
      assert CountOf(c) == CountOf(cells[k]) + 1;
      hide Bump, SumInt, CountOf;
      HitDistinct(cells, k, c);
      HitCounts(cells, users, more, region, month, now);
      HitMonths(cells, users, more, region, month, now);
    } else {
      var r := cells + [Cell(month, 1)];
      assert Bump(cells, month) == r;
      SumIntSnoc(cells, Cell(month, 1), CountOf);
      assert CountOf(Cell(month, 1)) == 1;
      hide Bump, SumInt, CountOf;
      MissDistinct(cells, month);
      MissCounts(cells, users, more, region, month, now);
      MissMonths(cells, users, more, region, month, now);
    }
  }

  lemma HitDistinct(cells: seq<Cell>, k: nat, c: Cell)
    requires DistinctMonths(cells) && k < |cells| && c.month == cells[k].month
    ensures DistinctMonths(cells[k := c])
  {
    var r := cells[k := c];
    assert forall j :: 0 <= j < |r| ==> r[j].month == cells[j].month;
  }

  lemma HitCounts(cells: seq<Cell>, users: seq<User>, more: seq<User>, region: string, month: string, now: Instant)
    requires DistinctMonths(cells) && CountsMatch(cells, users, region, now)
    requires MonthIndex(cells, month) < |cells|
    requires forall m :: CountIn(more, region, m, now) == CountIn(users, region, m, now) + (if m == month then 1 else 0)
    ensures var k := MonthIndex(cells, month);
            CountsMatch(cells[k := Cell(month, cells[k].count + 1)], more, region, now)
  {
    var k := MonthIndex(cells, month);
    var r := cells[k := Cell(month, cells[k].count + 1)];
    hide CountIn, MonthIndex;
    forall i | 0 <= i < |r| ensures r[i].count == CountIn(more, region, r[i].month, now) {
      if i != k {
        assert r[i] == cells[i] && cells[i].month != month;
      }
    }
  }

  lemma HitMonths(cells: seq<Cell>, users: seq<User>, more: seq<User>, region: string, month: string, now: Instant)
    requires MonthsMatch(cells, users, region, now)
    requires MonthIndex(cells, month) < |cells|
    requires forall m :: CountIn(more, region, m, now) == CountIn(users, region, m, now) + (if m == month then 1 else 0)
    ensures var k := MonthIndex(cells, month);
            MonthsMatch(cells[k := Cell(month, cells[k].count + 1)], more, region, now)
  {
    var k := MonthIndex(cells, month);
    var r := cells[k := Cell(month, cells[k].count + 1)];
    hide CountIn, MonthIndex;
    forall m ensures MonthIndex(r, m) < |r| <==> CountIn(more, region, m, now) > 0 {
      var ik := MonthIndex(cells, m);
      if ik < |cells| { assert r[ik].month == m; }
      var jk := MonthIndex(r, m);
      if jk < |r| { assert cells[jk].month == m; }
    }
  }

  lemma MissDistinct(cells: seq<Cell>, month: string)
    requires DistinctMonths(cells) && MonthIndex(cells, month) == |cells|
    ensures DistinctMonths(cells + [Cell(month, 1)])
  {
    var r := cells + [Cell(month, 1)];
    hide MonthIndex;
    assert forall j :: 0 <= j < |cells| ==> r[j] == cells[j] && cells[j].month != month;
  }

  lemma MissCounts(cells: seq<Cell>, users: seq<User>, more: seq<User>, region: string, month: string, now: Instant)
    requires CountsMatch(cells, users, region, now) && MonthsMatch(cells, users, region, now)
    requires MonthIndex(cells, month) == |cells|
    requires forall m :: CountIn(more, region, m, now) == CountIn(users, region, m, now) + (if m == month then 1 else 0)
    ensures CountsMatch(cells + [Cell(month, 1)], more, region, now)
  {
    var r := cells + [Cell(month, 1)];
    hide CountIn, MonthIndex;
    assert CountIn(users, region, month, now) == 0;
    forall i | 0 <= i < |r| ensures r[i].count == CountIn(more, region, r[i].month, now) {
      if i < |cells| {
        assert r[i] == cells[i] && cells[i].month != month;
      }
    }
  }

  lemma MissMonths(cells: seq<Cell>, users: seq<User>, more: seq<User>, region: string, month: string, now: Instant)
    requires MonthsMatch(cells, users, region, now)
    requires MonthIndex(cells, month) == |cells|
    requires forall m :: CountIn(more, region, m, now) == CountIn(users, region, m, now) + (if m == month then 1 else 0)
    ensures MonthsMatch(cells + [Cell(month, 1)], more, region, now)
  {
    var r := cells + [Cell(month, 1)];
    hide CountIn, MonthIndex;
    forall m ensures MonthIndex(r, m) < |r| <==> CountIn(more, region, m, now) > 0 {
      var ik := MonthIndex(cells, m);
      if ik < |cells| { assert r[ik].month == m; }
      if m == month { assert r[|cells|].month == m; }
      var jk := MonthIndex(r, m);
      if jk < |cells| { assert cells[jk].month == m; }
    }
  }

  lemma {:induction false} NoRegionNoCount(users: seq<User>, region: string, month: string, now: Instant)
    requires RegionTotal(users, region) == 0
    ensures CountIn(users, region, month, now) == 0
  {
    hide RegionOf, MonthOf, MonthIndex, RegionIndex;
    if users != [] {
      NoRegionNoCount(users[..|users| - 1], region, month, now);
    }
  }

  lemma EmptyCells(users: seq<User>, region: string, now: Instant)
    requires RegionTotal(users, region) == 0
    ensures CellsInv([], users, region, now)
  {
    hide RegionOf, MonthOf, MonthIndex, RegionIndex;
    forall m ensures CountIn(users, region, m, now) == 0 {
      NoRegionNoCount(users, region, m, now);
    }
  }

  /** Counting one more user keeps the region map right. */
  lemma RecordKeepsInv(bs: seq<RegionBucket>, users: seq<User>, u: User, now: Instant)
    requires HeatInv(bs, users, now)
    ensures HeatInv(Record(bs, RegionOf(u), MonthOf(u, now)), users + [u], now)
  {
    hide RegionOf, MonthOf, MonthIndex, HeatInv, Bump, CellsInv, RegionTotal;
    if RegionIndex(bs, RegionOf(u)) < |bs| {
      RecordHit(bs, users, u, now, RegionIndex(bs, RegionOf(u)));
    } else {
      RecordMiss(bs, users, u, now);
    }
  }

  /** A user of a region already on the map bumps that region's cells. */
  lemma RecordHit(bs: seq<RegionBucket>, users: seq<User>, u: User, now: Instant, k: nat)
    requires HeatInv(bs, users, now) && k == RegionIndex(bs, RegionOf(u)) && k < |bs|
    ensures HeatInv(bs[k := RegionBucket(RegionOf(u), Bump(bs[k].cells, MonthOf(u, now)))], users + [u], now)
  {
    hide RegionOf, MonthOf, MonthIndex, RegionIndex, Bump, CellsInv, RegionTotal;
    var region, month := RegionOf(u), MonthOf(u, now);
    var r := bs[k := RegionBucket(region, Bump(bs[k].cells, month))];
    forall x ensures RegionTotal(users + [u], x) == RegionTotal(users, x) + (if x == region then 1 else 0) {
      RegionTotalSnoc(users, u, x);
    }
    BumpKeepsInv(bs[k].cells, users, u, now);
    assert forall j :: 0 <= j < |r| ==> r[j].region == bs[j].region;
    forall j | 0 <= j < |r| ensures CellsInv(r[j].cells, users + [u], r[j].region, now) {
      if j != k {
        CellsUntouched(bs[j].cells, users, u, bs[j].region, now);
      }
    }
    forall x ensures RegionIndex(r, x) < |r| <==> RegionTotal(users + [u], x) > 0 {
      var ik := RegionIndex(bs, x);
      if ik < |bs| { assert r[ik].region == x; }
      var jk := RegionIndex(r, x);
      if jk < |r| { assert bs[jk].region == x; }
    }
  }

  /** A user of a region not yet on the map appends a region with one cell. */
  lemma RecordMiss(bs: seq<RegionBucket>, users: seq<User>, u: User, now: Instant)
    requires HeatInv(bs, users, now) && RegionIndex(bs, RegionOf(u)) == |bs|
    ensures HeatInv(bs + [RegionBucket(RegionOf(u), Bump([], MonthOf(u, now)))], users + [u], now)
  {
    hide RegionOf, MonthOf, MonthIndex, RegionIndex, Bump, CellsInv, RegionTotal;
    var region, month := RegionOf(u), MonthOf(u, now);
    var r := bs + [RegionBucket(region, Bump([], month))];
    forall x ensures RegionTotal(users + [u], x) == RegionTotal(users, x) + (if x == region then 1 else 0) {
      RegionTotalSnoc(users, u, x);
    }
    EmptyCells(users, region, now);
    BumpKeepsInv([], users, u, now);
    assert forall j :: 0 <= j < |bs| ==> r[j] == bs[j];
    forall j | 0 <= j < |r| ensures CellsInv(r[j].cells, users + [u], r[j].region, now) {
      if j < |bs| {
        CellsUntouched(bs[j].cells, users, u, bs[j].region, now);
      }
    }
    forall x ensures RegionIndex(r, x) < |r| <==> RegionTotal(users + [u], x) > 0 {
      var ik := RegionIndex(bs, x);
      if ik < |bs| { assert r[ik].region == x; }
      if x == region { assert r[|bs|].region == x; }
      var jk := RegionIndex(r, x);
      if jk < |bs| { assert bs[jk].region == x; }
    }
  }

  // ---------------------------------------------------------------- the busiest regions

  /** A region with the sum of its month counts. */
  datatype RegionRow = RegionRow(region: string, total: int, cells: seq<Cell>)

  function RowsOf(bs: seq<RegionBucket>): (rows: seq<RegionRow>)
    ensures |rows| == |bs|
  {
    seq(|bs|, k requires 0 <= k < |bs| => RegionRow(bs[k].region, SumInt(bs[k].cells, CountOf), bs[k].cells))
  }

  /** `(a, b) => b.total - a.total`: more users first. */
  predicate MoreUsers(a: RegionRow, b: RegionRow)
  {
    a.total >= b.total
  }

  lemma MoreUsersTotalPreorder()
    ensures TotalPreorder(MoreUsers)
  {
  }

  /** `bucket.get(month) ?? 0` */
  function CellFor(cells: seq<Cell>, month: string): nat
  {
    var k := MonthIndex(cells, month);
    if k < |cells| then cells[k].count else 0
  }

  /** The rows sorted busiest first, and the first five kept. */
  function TopRows(bs: seq<RegionBucket>): (top: seq<RegionRow>)
    ensures |top| <= 5 && |top| <= |bs|
  {
    var sorted := SortBy(RowsOf(bs), MoreUsers);
    sorted[..if |sorted| < 5 then |sorted| else 5]
  }

  /** The busiest rows, each shown as its counts for the requested months. */
  function HeatmapOf(bs: seq<RegionBucket>, months: seq<string>): Heatmap
  {
    var top := TopRows(bs);
    Heatmap(seq(|top|, i requires 0 <= i < |top| => seq(|months|, j requires 0 <= j < |months| => CellFor(top[i].cells, months[j]))),
            seq(|top|, i requires 0 <= i < |top| => top[i].region))
  }

  /** What the chart is told, in terms of the users: at most five rows, a cell per requested
    * month holding that region's users of that month, busiest region first, and no region
    * left out that has more users than one shown. */
  ghost predicate HeatmapOfUsers(h: Heatmap, users: seq<User>, months: seq<string>, now: Instant)
  {
    && |h.matrix| == |h.labels| <= 5
    && (forall i :: 0 <= i < |h.labels| ==> RegionTotal(users, h.labels[i]) > 0 && |h.matrix[i]| == |months|)
    && (forall i, j :: 0 <= i < |h.labels| && 0 <= j < |months| && j < |h.matrix[i]| ==>
          h.matrix[i][j] == CountIn(users, h.labels[i], months[j], now))
    && (forall i, j :: 0 <= i < j < |h.labels| ==> RegionTotal(users, h.labels[i]) >= RegionTotal(users, h.labels[j]))
    && (forall x :: RegionTotal(users, x) > 0 && x !in h.labels ==>
          |h.labels| == 5 && forall i :: 0 <= i < |h.labels| ==> RegionTotal(users, h.labels[i]) >= RegionTotal(users, x))
  }

  lemma RowFacts(bs: seq<RegionBucket>, users: seq<User>, now: Instant, row: RegionRow)
    requires HeatInv(bs, users, now) && row in multiset(RowsOf(bs))
    ensures row.total == RegionTotal(users, row.region) > 0
    ensures CellsInv(row.cells, users, row.region, now)
  {
    hide RegionOf, MonthOf, MonthIndex, RegionIndex;
    var rows := RowsOf(bs);
    var k :| 0 <= k < |rows| && rows[k] == row;
    assert RegionIndex(bs, bs[k].region) == k;
  }

  lemma CellForCount(cells: seq<Cell>, users: seq<User>, region: string, month: string, now: Instant)
    requires CellsInv(cells, users, region, now)
    ensures CellFor(cells, month) == CountIn(users, region, month, now)
  {
    hide RegionOf, MonthOf, MonthIndex, RegionIndex;
  }

  /** Every row shown is a region with users, with its true total and month map. */
  lemma TopRowsCounted(bs: seq<RegionBucket>, users: seq<User>, now: Instant)
    requires HeatInv(bs, users, now)
    ensures forall i :: 0 <= i < |TopRows(bs)| ==>
              TopRows(bs)[i].total == RegionTotal(users, TopRows(bs)[i].region) > 0 &&
              CellsInv(TopRows(bs)[i].cells, users, TopRows(bs)[i].region, now)
  {
    hide RegionOf, MonthOf, MonthIndex, RegionIndex;
    var sorted := SortBy(RowsOf(bs), MoreUsers);
    var top := TopRows(bs);
    assert forall i :: 0 <= i < |top| ==> top[i] == sorted[i];
    hide SortBy, RowsOf, TopRows, CellsInv, RegionTotal;
    forall i | 0 <= i < |top|
      ensures top[i].total == RegionTotal(users, top[i].region) > 0
      ensures CellsInv(top[i].cells, users, top[i].region, now)
    {
      assert sorted[i] in multiset(sorted);
      RowFacts(bs, users, now, sorted[i]);
    }
  }

  /** The rows shown run from the busiest down. */
  lemma TopRowsOrdered(bs: seq<RegionBucket>)
    ensures forall i, j :: 0 <= i < j < |TopRows(bs)| ==> TopRows(bs)[i].total >= TopRows(bs)[j].total
  {
    hide RegionOf, MonthOf, MonthIndex, RegionIndex;
    MoreUsersTotalPreorder();
    SortBySorted(RowsOf(bs), MoreUsers);
  }

  /** A region with users that is not shown means five are shown, none with fewer users. */
  lemma TopRowsComplete(bs: seq<RegionBucket>, users: seq<User>, now: Instant, x: string)
    requires HeatInv(bs, users, now)
    requires RegionTotal(users, x) > 0
    requires forall i :: 0 <= i < |TopRows(bs)| ==> TopRows(bs)[i].region != x
    ensures |TopRows(bs)| == 5
    ensures forall i :: 0 <= i < |TopRows(bs)| ==> TopRows(bs)[i].total >= RegionTotal(users, x)
  {
    hide RegionOf, MonthOf, MonthIndex, CountIn, SumInt, CellsInv;
    var rows := RowsOf(bs);
    var sorted := SortBy(rows, MoreUsers);
    var top := TopRows(bs);
    MoreUsersTotalPreorder();
    SortBySorted(rows, MoreUsers);
    assert forall i :: 0 <= i < |top| ==> top[i] == sorted[i];
    var k := RegionIndex(bs, x);
    assert rows[k].region == x;
    hide SortBy, RowsOf, TopRows, CellsInv, RegionTotal, RegionIndex, HeatInv;
    assert rows[k] in multiset(sorted);
    var p :| 0 <= p < |sorted| && sorted[p] == rows[k];
    RowFacts(bs, users, now, sorted[p]);
    assert p >= |top|;
  }

  /** The heatmap has a labelled row per busiest region and a cell per requested month. */
  lemma HeatmapShape(bs: seq<RegionBucket>, months: seq<string>)
    ensures var h, top := HeatmapOf(bs, months), TopRows(bs);
            && |h.labels| == |h.matrix| == |top|
            && (forall i :: 0 <= i < |top| ==> h.labels[i] == top[i].region && |h.matrix[i]| == |months|)
            && (forall i, j :: 0 <= i < |top| && 0 <= j < |months| ==> h.matrix[i][j] == CellFor(top[i].cells, months[j]))
  {
    hide RegionOf, MonthOf, MonthIndex, RegionIndex, TopRows, CellFor;
  }

  lemma HeatmapFacts(bs: seq<RegionBucket>, users: seq<User>, months: seq<string>, now: Instant)
    requires HeatInv(bs, users, now)
    ensures HeatmapOfUsers(HeatmapOf(bs, months), users, months, now)
  {
    hide RegionOf, MonthOf, MonthIndex, RegionIndex, CountIn, RegionTotal, CellsInv, HeatInv, SortBy, RowsOf, SumInt;
    var top := TopRows(bs);
    var h := HeatmapOf(bs, months);
    HeatmapShape(bs, months);
    TopRowsCounted(bs, users, now);
    TopRowsOrdered(bs);
    hide HeatmapOf, TopRows, CellFor;
    forall i, j | 0 <= i < |top| && 0 <= j < |months|
      ensures h.matrix[i][j] == CountIn(users, h.labels[i], months[j], now)
    {
      CellForCount(top[i].cells, users, top[i].region, months[j], now);
    }
    forall x | RegionTotal(users, x) > 0 && x !in h.labels
      ensures |h.labels| == 5 && forall i :: 0 <= i < |h.labels| ==> RegionTotal(users, h.labels[i]) >= RegionTotal(users, x)
    {
      TopRowsComplete(bs, users, now, x);
    }
  }

  /** Counting the next user keeps the region map in step with the users counted so far. */
  lemma RecordStep(bs: seq<RegionBucket>, users: seq<User>, i: nat, now: Instant)
    requires i < |users| && HeatInv(bs, users[..i], now)
    ensures HeatInv(Record(bs, RegionOf(users[i]), MonthOf(users[i], now)), users[..i + 1], now)
  {
    hide RegionOf, MonthOf, HeatInv, Record;
    RecordKeepsInv(bs, users[..i], users[i], now);
    assert users[..i + 1] == users[..i] + [users[i]];
  }

  // ---------------------------------------------------------------- buildHeatmapMatrix

  /** `buildHeatmapMatrix`: fails on a user whose creation date does not parse; otherwise the
    * heatmap of the five busiest regions over the requested months. */
  method BuildHeatmapMatrix(users: seq<User>, months: seq<string>, now: Instant) returns (r: Result<Heatmap>)
    ensures r.Failure? <==> exists i :: 0 <= i < |users| && users[i].createdAt.Invalid?
    ensures r.Failure? ==> r.error == InvalidDate
    ensures r.Success? ==> HeatmapOfUsers(r.value, users, months, now)
  {
    hide RegionOf, MonthOf;
    var regionMap: seq<RegionBucket> := [];
    var i := 0;
    assert HeatInv(regionMap, users[..i], now);
    hide HeatInv, Record, HeatmapOf, HeatmapOfUsers, MonthIndex, RegionIndex, CountIn, RegionTotal;
    while i < |users|
      invariant 0 <= i <= |users|
      invariant forall k :: 0 <= k < i ==> !users[k].createdAt.Invalid?
      invariant HeatInv(regionMap, users[..i], now)
    {
      if users[i].createdAt.Invalid? {
        return Failure(InvalidDate);
      }
      RecordStep(regionMap, users, i, now);
      regionMap := Record(regionMap, RegionOf(users[i]), MonthOf(users[i], now));
      i := i + 1;
    }
    assert users[..i] == users;
    HeatmapFacts(regionMap, users, months, now);
    r := Success(HeatmapOf(regionMap, months));
  }
}
