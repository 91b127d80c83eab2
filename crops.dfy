/**
 * The crop-table routes: the sorted catalogue of crop names, the
 * case-insensitive history of one crop with its aggregates, and the
 * per-crop summary with average growing conditions.
 */
module Crops {
  import opened Collections
  import opened Stats
  import opened Strings
  import opened Dataset
  import opened Responses

  // ---------------------------------------------------------------------
  // GET /crops
  // ---------------------------------------------------------------------

  /** The `Crop` column, in table order. */
  function CropColumn(table: seq<CropRecord>): (names: seq<string>)
    ensures |names| == |table|
    ensures forall i | 0 <= i < |table| :: names[i] == table[i].crop
  {
    seq(|table|, i requires 0 <= i < |table| => table[i].crop)
  }

  /** The set of crop names that occur in the table. */
  function CropNames(table: seq<CropRecord>): set<string> {
    set i | 0 <= i < |table| :: table[i].crop
  }

  lemma CropColumnNames(table: seq<CropRecord>)
    ensures Elems(CropColumn(table)) == CropNames(table)
  {
    var col := CropColumn(table);
    forall x | x in CropNames(table) ensures x in col {
      var i :| 0 <= i < |table| && table[i].crop == x;
      assert col[i] == x;
    }
  }

  /** `Series.unique()`: each name once, in order of first appearance. */
  function Unique(names: seq<string>): (u: seq<string>)
    ensures Distinct(u)
    ensures Elems(u) == Elems(names)
  {
    if names == [] then []
    else
      var init, last := names[..|names| - 1], names[|names| - 1];
      assert names == init + [last];
      assert Elems(names) == Elems(init) + {last};
      var u := Unique(init);
      if last in u then u else u + [last]
  }

  /** Each name is strictly smaller than every name after it. */
  predicate StrictlyAscending(s: seq<string>) {
    forall i, j | 0 <= i < j < |s| :: Less(s[i], s[j])
  }

  lemma AscendingIsDistinct(s: seq<string>)
    requires StrictlyAscending(s)
    ensures Distinct(s)
  {
    forall i, j | 0 <= i < j < |s| ensures s[i] != s[j] {
      LessIrreflexive(s[i]);
    }
  }

  /** A name below every name of an ascending list can be put in front of it. */
  lemma PrependAscending(x: string, s: seq<string>)
    requires StrictlyAscending(s)
    requires forall e | e in s :: Less(x, e)
    ensures StrictlyAscending([x] + s)
  {
    var r := [x] + s;
    forall i, j | 0 <= i < j < |r| ensures Less(r[i], r[j]) {
      if i > 0 {
        assert r[i] == s[i - 1] && r[j] == s[j - 1];
      } else {
        assert r[j] in s;
      }
    }
  }

  /** A name below the head of an ascending list is below all of it. */
  lemma BelowHead(x: string, s: seq<string>)
    requires StrictlyAscending(s) && s != [] && Less(x, s[0])
    ensures forall e | e in s :: Less(x, e)
  {
    forall e | e in s ensures Less(x, e) {
      var j :| 0 <= j < |s| && s[j] == e;
      if j > 0 { LessTransitive(x, s[0], s[j]); }
    }
  }

  /** Insertion of a new name into a strictly ascending list. */
  function Insert(x: string, s: seq<string>): (r: seq<string>)
    requires StrictlyAscending(s) && x !in s
    ensures StrictlyAscending(r)
    ensures multiset(r) == multiset(s) + multiset{x}
  {
    if s == [] then [x]
    else if Less(x, s[0]) then
      BelowHead(x, s);
      PrependAscending(x, s);
      [x] + s
    else
      var head, tail := s[0], s[1..];
      assert s == [head] + tail;
      assert Less(head, x) by { LessTotal(x, head); }
      assert forall e | e in tail :: Less(head, e);
      var rest := Insert(x, tail);
      assert forall e | e in rest :: Less(head, e) by {
        forall e | e in rest ensures Less(head, e) {
          assert e in multiset(rest);
        }
      }
      PrependAscending(head, rest);
      [head] + rest
  }

  /** `sorted(...)` of a list without repetitions. */
  function SortNames(s: seq<string>): (r: seq<string>)
    requires Distinct(s)
    ensures StrictlyAscending(r)
    ensures multiset(r) == multiset(s)
  {
    if s == [] then []
    else
      var rest := SortNames(s[1..]);
      assert s == [s[0]] + s[1..];
      assert s[0] !in multiset(rest) by {
        assert s[0] !in s[1..];
      }
      Insert(s[0], rest)
  }

  /** Sorting a list without repetitions keeps its elements and its length. */
  lemma SortNamesKeepsNames(s: seq<string>)
    requires Distinct(s)
    ensures Elems(SortNames(s)) == Elems(s)
    ensures |SortNames(s)| == |s|
  {
    var r := SortNames(s);
    assert |multiset(r)| == |multiset(s)|;
    forall x ensures x in r <==> x in s {
      assert x in r <==> x in multiset(r);
      assert x in s <==> x in multiset(s);
    }
  }

  datatype CropList = CropList(crops: seq<string>, total: nat)

  /**
   * The catalogue: every crop name of the table once, in ascending order,
   * with `total` the number of distinct names.
   */
  function GetAllCrops(table: seq<CropRecord>): (r: CropList)
    ensures StrictlyAscending(r.crops)
    ensures Distinct(r.crops)
    ensures Elems(r.crops) == CropNames(table)
    ensures r.total == |r.crops| == |Elems(r.crops)|
  {
    var crops := Unique(CropColumn(table));
    var sorted := SortNames(crops);
    SortNamesKeepsNames(crops);
    AscendingIsDistinct(sorted);
    DistinctCard(sorted);
    CropColumnNames(table);
    CropList(sorted, |crops|)
  }

  // ---------------------------------------------------------------------
  // Case-insensitive selection
  // ---------------------------------------------------------------------

  /** `crop_data['Crop'].str.lower() == crop_name.lower()` for one row. */
  predicate Matches(row: CropRecord, query: string) {
    Lower(row.crop) == Lower(query)
  }

  /** The table positions of the matching rows, in table order. */
  function MatchIndices(table: seq<CropRecord>, query: string): (m: seq<nat>)
    ensures forall k | 0 <= k < |m| :: m[k] < |table| && Matches(table[m[k]], query)
    ensures forall k, l | 0 <= k < l < |m| :: m[k] < m[l]
    ensures forall i | 0 <= i < |table| && Matches(table[i], query) :: i in m
    decreases |table|
  {
    if table == [] then []
    else
      var n := |table| - 1;
      var m := MatchIndices(table[..n], query);
      if Matches(table[n], query) then m + [n] else m
  }

  /** Two queries that lower-case alike select the same rows. */
  lemma {:induction false} MatchIndicesCaseInsensitive(table: seq<CropRecord>, q1: string, q2: string)
    requires Lower(q1) == Lower(q2)
    ensures MatchIndices(table, q1) == MatchIndices(table, q2)
    decreases |table|
  {
    if table != [] {
      MatchIndicesCaseInsensitive(table[..|table| - 1], q1, q2);
    }
  }

  /** "Wheat", "wheat" and "WHEAT" select the same rows of any table. */
  lemma WheatInAnyCase(table: seq<CropRecord>)
    ensures MatchIndices(table, "Wheat") == MatchIndices(table, "wheat")
    ensures MatchIndices(table, "WHEAT") == MatchIndices(table, "wheat")
  {
    assert Lower("Wheat") == "wheat";
    assert Lower("WHEAT") == "wheat";
    MatchIndicesCaseInsensitive(table, "Wheat", "wheat");
    MatchIndicesCaseInsensitive(table, "WHEAT", "wheat");
  }

  /** The rows at the given positions, in that order. */
  function Rows(table: seq<CropRecord>, idx: seq<nat>): (rows: seq<CropRecord>)
    requires forall k | 0 <= k < |idx| :: idx[k] < |table|
    ensures |rows| == |idx|
    ensures forall k | 0 <= k < |idx| :: rows[k] == table[idx[k]]
  {
    seq(|idx|, k requires 0 <= k < |idx| => table[idx[k]])
  }

  // ---------------------------------------------------------------------
  // GET /crop-history/{crop_name}
  // ---------------------------------------------------------------------

  /** At most this many of the most recent matching rows are returned. */
  const HISTORY_LIMIT: nat := 20

  /** One entry of the history: the row's table index and four of its columns. */
  datatype HistoryPoint = HistoryPoint(
    index: nat,
    yieldKgPerHa: real,
    pricePerQuintal: real,
    rainfall: real,
    temperature: real)

  function PointAt(table: seq<CropRecord>, i: nat): HistoryPoint
    requires i < |table|
  {
    var row := table[i];
    HistoryPoint(i, row.yieldKgPerHa, row.pricePerQuintal, row.rainfall, row.temperature)
  }

  /** The history entries of the rows at the given positions, in that order. */
  function Points(table: seq<CropRecord>, idx: seq<nat>): (ps: seq<HistoryPoint>)
    requires forall k | 0 <= k < |idx| :: idx[k] < |table|
    ensures |ps| == |idx|
    ensures forall k | 0 <= k < |idx| :: ps[k] == PointAt(table, idx[k])
  {
    seq(|idx|, k requires 0 <= k < |idx| => PointAt(table, idx[k]))
  }

  /** The last `limit` entries of `s`, or all of them when there are fewer. */
  function Recent<T>(s: seq<T>, limit: nat): (r: seq<T>)
    ensures |r| == if |s| > limit then limit else |s|
    ensures r == s[|s| - |r|..]
  {
    if |s| > limit then s[|s| - limit..] else s
  }

  /**
   * The history of a query is made of matching rows only, strictly in table
   * order, and none of them is older than a matching row it leaves out.
   */
  lemma RecentHistoryMatches(table: seq<CropRecord>, query: string)
    ensures
      var m := MatchIndices(table, query);
      var h := Recent(Points(table, m), HISTORY_LIMIT);
      && |h| == (if |m| > HISTORY_LIMIT then HISTORY_LIMIT else |m|)
      && (forall j | 0 <= j < |h| ::
            h[j].index < |table| && Matches(table[h[j].index], query) && h[j] == PointAt(table, h[j].index))
      && (forall j, l | 0 <= j < l < |h| :: h[j].index < h[l].index)
      && (forall k, j | 0 <= k < |m| - |h| && 0 <= j < |h| :: m[k] < h[j].index)
  {
    var m := MatchIndices(table, query);
    var all := Points(table, m);
    var h := Recent(all, HISTORY_LIMIT);
    var d := |m| - |h|;
    forall j | 0 <= j < |h|
      ensures h[j] == PointAt(table, m[d + j])
    {
      assert h[j] == all[d + j];
    }
  }

  /** The loop over `iterrows()`: one history entry per selected row, in order. */
  method HistoryRows(table: seq<CropRecord>, idx: seq<nat>) returns (history: seq<HistoryPoint>)
    requires forall k | 0 <= k < |idx| :: idx[k] < |table|
    ensures history == Points(table, idx)
  {
    history := [];
    for k := 0 to |idx|
      invariant history == Points(table, idx[..k])
    {
      var i := idx[k];
      var row := table[i];
      history := history + [HistoryPoint(i, row.yieldKgPerHa, row.pricePerQuintal, row.rainfall, row.temperature)];
    }
    assert idx[..|idx|] == idx;
  }

  datatype CropHistory = CropHistory(
    totalRecords: nat,
    history: seq<HistoryPoint>,
    yieldStats: Summary,
    priceStats: Summary)

  /**
   * The history route: not-found exactly when no row matches; otherwise the
   * last min(20, n) matching rows (see RecentHistoryMatches), the full match
   * count n, and min/mean/max of yield and price over all n matching rows.
   */
  method GetCropHistory(table: seq<CropRecord>, cropName: string) returns (r: Response<CropHistory>)
    ensures r.HttpError? <==> forall i | 0 <= i < |table| :: !Matches(table[i], cropName)
    ensures r.HttpError? ==>
      r.status == NOT_FOUND && r.detail == "Crop '" + cropName + "' not found in database"
    ensures r.Ok? ==>
      var m := MatchIndices(table, cropName);
      && |m| > 0
      && r.body.totalRecords == |m|
      && r.body.history == Recent(Points(table, m), HISTORY_LIMIT)
      && r.body.yieldStats == Summarize(Yields(Rows(table, m)))
      && r.body.priceStats == Summarize(Prices(Rows(table, m)))
    ensures r.Ok? ==>
      var s := r.body;
      s.yieldStats.min <= s.yieldStats.avg <= s.yieldStats.max &&
      s.priceStats.min <= s.priceStats.avg <= s.priceStats.max
  {
    var matches := MatchIndices(table, cropName);
    if |matches| == 0 {
      return HttpError(NOT_FOUND, "Crop '" + cropName + "' not found in database");
    }
    var history := HistoryRows(table, matches);
    if |history| > HISTORY_LIMIT {
      history := history[|history| - HISTORY_LIMIT..];
    }
    assert history == Recent(Points(table, matches), HISTORY_LIMIT);
    assert Matches(table[matches[0]], cropName);
    var rows := Rows(table, matches);
    var yieldStats, priceStats := Summarize(Yields(rows)), Summarize(Prices(rows));
    r := Ok(CropHistory(|matches|, history, yieldStats, priceStats));
  }

  // ---------------------------------------------------------------------
  // GET /crop-info/{crop_name}
  // ---------------------------------------------------------------------

  /** Column means of the seven features over the matching rows. */
  datatype Conditions = Conditions(
    nitrogen: real,
    phosphorus: real,
    potassium: real,
    temperature: real,
    humidity: real,
    phValue: real,
    rainfall: real)

  datatype CropInfo = CropInfo(
    avgYield: real,
    avgPrice: real,
    avgRevenue: real,
    totalRecords: nat,
    optimalConditions: Conditions)

  /**
   * The summary route: not-found exactly when no row matches; otherwise the
   * means over all matching rows, with the revenue averaged row by row.
   */
  function GetCropInfo(table: seq<CropRecord>, cropName: string): (r: Response<CropInfo>)
    ensures r.HttpError? <==> forall i | 0 <= i < |table| :: !Matches(table[i], cropName)
    ensures r.HttpError? ==> r == HttpError(NOT_FOUND, "Crop '" + cropName + "' not found")
    ensures r.Ok? ==>
      var rows := Rows(table, MatchIndices(table, cropName));
      && r.body.totalRecords == |rows| > 0
      && r.body.avgYield == Mean(Yields(rows))
      && r.body.avgPrice == Mean(Prices(rows))
      && r.body.avgRevenue == Mean(Revenues(rows))
      && Min(Yields(rows)) <= r.body.avgYield <= Max(Yields(rows))
      && Min(Prices(rows)) <= r.body.avgPrice <= Max(Prices(rows))
      && Min(Revenues(rows)) <= r.body.avgRevenue <= Max(Revenues(rows))
  {
    var rows := Rows(table, MatchIndices(table, cropName));
    if |rows| == 0 then
      HttpError(NOT_FOUND, "Crop '" + cropName + "' not found")
    else
      MeanBetween(Yields(rows));
      MeanBetween(Prices(rows));
      MeanBetween(Revenues(rows));
      Ok(CropInfo(
        Mean(Yields(rows)),
        Mean(Prices(rows)),
        Mean(Revenues(rows)),
        |rows|,
        Conditions(
          Mean(Column(rows, (r: CropRecord) => r.nitrogen)),
          Mean(Column(rows, (r: CropRecord) => r.phosphorus)),
          Mean(Column(rows, (r: CropRecord) => r.potassium)),
          Mean(Column(rows, (r: CropRecord) => r.temperature)),
          Mean(Column(rows, (r: CropRecord) => r.humidity)),
          Mean(Column(rows, (r: CropRecord) => r.phValue)),
          Mean(Column(rows, (r: CropRecord) => r.rainfall)))))
  }

  /**
   * Queries that lower-case alike get the same summary; only the not-found
   * message differs, since it quotes the query as typed.
   */
  lemma CropInfoCaseInsensitive(table: seq<CropRecord>, q1: string, q2: string)
    requires Lower(q1) == Lower(q2)
    ensures GetCropInfo(table, q1).Ok? <==> GetCropInfo(table, q2).Ok?
    ensures GetCropInfo(table, q1).Ok? ==> GetCropInfo(table, q1) == GetCropInfo(table, q2)
  {
    MatchIndicesCaseInsensitive(table, q1, q2);
  }

  /**
   * The summary's average revenue is the mean of per-row revenues, which in
   * general differs from the revenue of the mean yield and mean price that
   * the ranking routes report for the same crop: two rows with yield/price
   * 1/3 and 3/1 average 0.03 per row, while the means 2/2 give 0.04.
   */
  lemma AverageRevenueIsNotRevenueOfAverages(table: seq<CropRecord>)
    requires |table| == 2
    requires table[0].yieldKgPerHa == 1.0 && table[0].pricePerQuintal == 3.0
    requires table[1].yieldKgPerHa == 3.0 && table[1].pricePerQuintal == 1.0
    ensures Mean(Revenues(table)) == 0.03
    ensures Revenue(Mean(Yields(table)), Mean(Prices(table))) == 0.04
  {
    var revs, ys, ps := Revenues(table), Yields(table), Prices(table);
    assert revs == [0.03, 0.03];
    SumPair(0.03, 0.03);
    assert ys == [1.0, 3.0];
    SumPair(1.0, 3.0);
    assert ps == [3.0, 1.0];
    SumPair(3.0, 1.0);
  }
}
