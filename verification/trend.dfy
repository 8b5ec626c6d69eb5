/**
 * The expense trend charts: `trendData` (expenses per category per month)
 * and `trendSubData` (expenses of one category per sub-category per month).
 * Both group the transactions in one pass into a dictionary of months, each
 * holding a running total per series, order the months and keep the last
 * twelve. A month is its MonthIndex; for four-digit years the `YYYY-MM`
 * strings the application compares order exactly like it
 * (IsoDate.MonthKeyOrder).
 */
module Trend {
  import opened SeqUtil
  import opened Calendar
  import opened Ledger

  /** At most this many months are kept, the latest ones (`.slice(-12)`). */
  const MaxMonths: int := 12

  /** The month a charted transaction falls in; nothing for a transaction the chart leaves out. */
  function MonthOf(key: Txn -> Option<string>): Txn -> Option<int> {
    (t: Txn) => if key(t).Some? then Some(MonthIndex(t.date)) else None
  }

  /** The series of a charted transaction of month `mo`. */
  function InMonth(key: Txn -> Option<string>, mo: int): Txn -> Option<string> {
    (t: Txn) => if MonthIndex(t.date) == mo then key(t) else None
  }

  /** The state of the grouping after the transactions `done`. */
  ghost predicate Grid(done: seq<Txn>, key: Txn -> Option<string>, m: map<int, map<string, int>>, months: seq<int>) {
    && Distinct(months)
    && (forall mo :: mo in m <==> mo in months)
    && m.Keys == KeysOf(done, MonthOf(key))
    && (forall mo :: mo in m ==> m[mo].Keys == KeysOf(done, InMonth(key, mo)))
    && (forall mo, c :: mo in m && c in m[mo] ==> m[mo][c] == SumWhere(done, InMonth(key, mo), c, Amount))
  }

  /** A month with a series entry is a month with a charted transaction. */
  lemma MonthOfSeries(s: seq<Txn>, key: Txn -> Option<string>, mo: int, c: string)
    requires c in KeysOf(s, InMonth(key, mo))
    ensures mo in KeysOf(s, MonthOf(key))
  {
    var t :| t in s && InMonth(key, mo)(t).Some? && InMonth(key, mo)(t).value == c;
    assert MonthOf(key)(t) == Some(mo);
  }

  /** A transaction of another month, or one the chart leaves out, changes nothing in month `mo`. */
  lemma OtherMonthStep(done: seq<Txn>, t: Txn, key: Txn -> Option<string>, mo: int)
    requires key(t).None? || MonthIndex(t.date) != mo
    ensures KeysOf(done + [t], InMonth(key, mo)) == KeysOf(done, InMonth(key, mo))
    ensures forall c :: SumWhere(done + [t], InMonth(key, mo), c, Amount) == SumWhere(done, InMonth(key, mo), c, Amount)
  {
    KeysOfSnoc(done, t, InMonth(key, mo));
    forall c ensures SumWhere(done + [t], InMonth(key, mo), c, Amount) == SumWhere(done, InMonth(key, mo), c, Amount) {
      SumWhereSnoc(done, t, InMonth(key, mo), c, Amount);
    }
  }

  /** The month of `t` gains its series, with the amount added to that series' total. */
  lemma SameMonthStep(done: seq<Txn>, t: Txn, key: Txn -> Option<string>, row: map<string, int>, row': map<string, int>)
    requires key(t).Some?
    requires row.Keys == KeysOf(done, InMonth(key, MonthIndex(t.date)))
    requires forall c :: c in row ==> row[c] == SumWhere(done, InMonth(key, MonthIndex(t.date)), c, Amount)
    requires var c := key(t).value; row' == row[c := (if c in row then row[c] else 0) + t.amount]
    ensures row'.Keys == KeysOf(done + [t], InMonth(key, MonthIndex(t.date)))
    ensures forall c' :: c' in row' ==> row'[c'] == SumWhere(done + [t], InMonth(key, MonthIndex(t.date)), c', Amount)
  {
    var mo := MonthIndex(t.date);
    var c := key(t).value;
    assert InMonth(key, mo)(t) == Some(c);
    KeysOfSnoc(done, t, InMonth(key, mo));
    forall c' ensures SumWhere(done + [t], InMonth(key, mo), c', Amount) ==
                      SumWhere(done, InMonth(key, mo), c', Amount) + (if c' == c then t.amount else 0) {
      SumWhereSnoc(done, t, InMonth(key, mo), c', Amount);
    }
    if c !in row {
      SumWhereAbsent(done, InMonth(key, mo), c, Amount);
    }
  }

  /** A transaction the chart leaves out changes nothing. */
  lemma GridSkip(done: seq<Txn>, t: Txn, key: Txn -> Option<string>, m: map<int, map<string, int>>, months: seq<int>)
    requires Grid(done, key, m, months) && key(t).None?
    ensures Grid(done + [t], key, m, months)
  {
    KeysOfSnoc(done, t, MonthOf(key));
    forall mo | mo in m ensures m[mo].Keys == KeysOf(done + [t], InMonth(key, mo))
      && forall c :: c in m[mo] ==> m[mo][c] == SumWhere(done + [t], InMonth(key, mo), c, Amount) {
      OtherMonthStep(done, t, key, mo);
    }
  }

  /** What one charted transaction `t` does to the grouping state. */
  ghost predicate Added(t: Txn, key: Txn -> Option<string>, m: map<int, map<string, int>>, months: seq<int>,
                        row': map<string, int>, m': map<int, map<string, int>>, months': seq<int>)
    requires key(t).Some?
  {
    var mo := MonthIndex(t.date);
    var c := key(t).value;
    var row := if mo in m then m[mo] else map[];
    && months' == (if mo in m then months else months + [mo])
    && row' == row[c := (if c in row then row[c] else 0) + t.amount]
    && m' == m[mo := row']
  }

  lemma GridAddMonths(done: seq<Txn>, t: Txn, key: Txn -> Option<string>, m: map<int, map<string, int>>, months: seq<int>,
                      row': map<string, int>, m': map<int, map<string, int>>, months': seq<int>)
    requires Grid(done, key, m, months) && key(t).Some? && Added(t, key, m, months, row', m', months')
    ensures Distinct(months') && (forall mo :: mo in m' <==> mo in months')
    ensures m'.Keys == KeysOf(done + [t], MonthOf(key))
  {
    var mo := MonthIndex(t.date);
    KeysOfSnoc(done, t, MonthOf(key));
    if mo !in m {
      AppendFresh(months, mo);
    }
  }

  lemma GridAddRows(done: seq<Txn>, t: Txn, key: Txn -> Option<string>, m: map<int, map<string, int>>, months: seq<int>,
                    row': map<string, int>, m': map<int, map<string, int>>, months': seq<int>)
    requires Grid(done, key, m, months) && key(t).Some? && Added(t, key, m, months, row', m', months')
    ensures forall mo :: mo in m' ==> m'[mo].Keys == KeysOf(done + [t], InMonth(key, mo))
    ensures forall mo, c :: mo in m' && c in m'[mo] ==> m'[mo][c] == SumWhere(done + [t], InMonth(key, mo), c, Amount)
  {
    var mo := MonthIndex(t.date);
    var row := if mo in m then m[mo] else map[];
    if mo !in m {
      forall c' ensures c' !in KeysOf(done, InMonth(key, mo)) {
        if c' in KeysOf(done, InMonth(key, mo)) {
          MonthOfSeries(done, key, mo, c');
        }
      }
    }
    SameMonthStep(done, t, key, row, row');
    forall mo' | mo' in m' && mo' != mo ensures m'[mo'] == m[mo'] {
    }
    forall mo' | mo' in m' ensures m'[mo'].Keys == KeysOf(done + [t], InMonth(key, mo')) {
      if mo' != mo {
        OtherMonthStep(done, t, key, mo');
      }
    }
    forall mo', c' | mo' in m' && c' in m'[mo'] ensures m'[mo'][c'] == SumWhere(done + [t], InMonth(key, mo'), c', Amount) {
      if mo' != mo {
        OtherMonthStep(done, t, key, mo');
      }
    }
  }

  /** One charted transaction keeps the grouping state a grid of the transactions seen so far. */
  lemma GridAdd(done: seq<Txn>, t: Txn, key: Txn -> Option<string>, m: map<int, map<string, int>>, months: seq<int>,
                row': map<string, int>, m': map<int, map<string, int>>, months': seq<int>)
    requires Grid(done, key, m, months) && key(t).Some? && Added(t, key, m, months, row', m', months')
    ensures Grid(done + [t], key, m', months')
  {
    GridAddMonths(done, t, key, m, months, row', m', months');
    GridAddRows(done, t, key, m, months, row', m', months');
  }

  /**
   * The `forEach` callback: open the month of `t` when it is new, then add
   * `t`'s amount to its series. The grouping of the transactions `done`
   * seen so far becomes the grouping of `done + [t]`.
   */
  method AddToMonth(ghost done: seq<Txn>, t: Txn, key: Txn -> Option<string>, m: map<int, map<string, int>>, months: seq<int>)
    returns (m': map<int, map<string, int>>, months': seq<int>)
    requires Grid(done, key, m, months) && key(t).Some?
    ensures Grid(done + [t], key, m', months')
    ensures months' == if MonthIndex(t.date) in m then months else months + [MonthIndex(t.date)]
  {
    m', months' := m, months;
    var mo := MonthIndex(t.date);
    if mo !in m' {
      m' := m'[mo := map[]];
      months' := months' + [mo];
    }
    var c := key(t).value;
    var row := m'[mo];
    m' := m'[mo := row[c := (if c in row then row[c] else 0) + t.amount]];
    assert Added(t, key, m, months, m'[mo], m', months');
    GridAdd(done, t, key, m, months, m'[mo], m', months');
  }

  /** The grouping loop: the dictionary of months, each with its running totals, and the months in creation order. */
  method GroupByMonth(items: seq<Txn>, key: Txn -> Option<string>) returns (m: map<int, map<string, int>>, months: seq<int>)
    ensures Distinct(months) && (forall mo :: mo in m <==> mo in months)
    ensures m.Keys == KeysOf(items, MonthOf(key))
    ensures forall mo :: mo in m ==> m[mo].Keys == KeysOf(items, InMonth(key, mo))
    ensures forall mo, c :: mo in m && c in m[mo] ==> m[mo][c] == SumWhere(items, InMonth(key, mo), c, Amount)
  {
    m, months := map[], [];
    for i := 0 to |items|
      invariant Grid(items[..i], key, m, months)
    {
      var t := items[i];
      assert items[..i + 1] == items[..i] + [t];
      if key(t).Some? {
        m, months := AddToMonth(items[..i], t, key, m, months);
      } else {
        GridSkip(items[..i], t, key, m, months);
      }
    }
    assert items[..|items|] == items;
  }

  // ---------------------------------------------------------------- rows

  /** A chart row: a month and the total of each series in it. */
  datatype TrendRow = TrendRow(month: int, totals: map<string, int>)

  function RowMonth(r: TrendRow): int { r.month }

  /** The ascending month order as a descending key, so that the stable sort of SeqUtil applies. */
  function Earlier(r: TrendRow): int { -r.month }

  predicate Ascending(rows: seq<TrendRow>) {
    forall i, j :: 0 <= i < j < |rows| ==> rows[i].month < rows[j].month
  }

  /** `Object.values(m)`: the month rows in creation order. */
  function MonthRows(months: seq<int>, m: map<int, map<string, int>>): (r: seq<TrendRow>)
    requires forall i :: 0 <= i < |months| ==> months[i] in m
    ensures |r| == |months|
    ensures forall i :: 0 <= i < |months| ==> r[i] == TrendRow(months[i], m[months[i]])
  {
    if months == [] then []
    else MonthRows(months[..|months| - 1], m) + [TrendRow(months[|months| - 1], m[months[|months| - 1]])]
  }

  /** `.slice(-12)`: the last twelve rows, or all of them when there are fewer. */
  function LastMonths(sorted: seq<TrendRow>): (r: seq<TrendRow>)
    ensures |r| == if |sorted| > MaxMonths then MaxMonths else |sorted|
    ensures r == sorted[|sorted| - |r|..]
  {
    if |sorted| > MaxMonths then sorted[|sorted| - MaxMonths..] else sorted
  }

  /** Sorting rows of distinct months by `Earlier` puts them in strictly ascending month order. */
  lemma SortedMonths(unsorted: seq<TrendRow>, sorted: seq<TrendRow>)
    requires DistinctBy(unsorted, RowMonth)
    requires sorted == SortDesc(unsorted, Earlier)
    ensures Ascending(sorted)
    ensures forall x :: x in sorted <==> x in unsorted
  {
    SortDescDistinctBy(unsorted, Earlier, RowMonth);
    SortDescMembers(unsorted, Earlier);
    forall i, j | 0 <= i < j < |sorted| ensures sorted[i].month < sorted[j].month {
      assert Earlier(sorted[i]) >= Earlier(sorted[j]);
      assert RowMonth(sorted[i]) != RowMonth(sorted[j]);
    }
  }

  /**
   * The kept rows are ascending, and a row of the sorted ones that is not
   * kept is earlier than every kept row, of which there are twelve.
   */
  lemma LastMonthsKeep(sorted: seq<TrendRow>)
    requires Ascending(sorted)
    ensures Ascending(LastMonths(sorted))
    ensures forall x :: x in LastMonths(sorted) ==> x in sorted
    ensures forall x :: x in sorted ==>
              x in LastMonths(sorted) || (|LastMonths(sorted)| == MaxMonths && x.month < LastMonths(sorted)[0].month)
  {
    var r := LastMonths(sorted);
    var d := |sorted| - |r|;
    forall x | x in sorted ensures x in r || (|r| == MaxMonths && x.month < r[0].month) {
      var i :| 0 <= i < |sorted| && sorted[i] == x;
      if i >= d {
        assert r[i - d] == x;
      } else {
        assert r[0] == sorted[d];
      }
    }
  }

  // ---------------------------------------------------------------- the chart

  /** The transactions of series `c` in month `mo`. */
  function InSeries(key: Txn -> Option<string>, mo: int, c: string): Txn -> bool {
    (t: Txn) => MonthIndex(t.date) == mo && key(t) == Some(c)
  }

  /** A month has a row entry for a series exactly when a transaction of that series falls in it. */
  lemma SeriesKeys(txns: seq<Txn>, key: Txn -> Option<string>, mo: int)
    ensures forall c :: c in KeysOf(txns, InMonth(key, mo)) <==> exists t :: t in txns && InSeries(key, mo, c)(t)
  {
    forall c | exists t :: t in txns && InSeries(key, mo, c)(t)
      ensures c in KeysOf(txns, InMonth(key, mo))
    {
      var t :| t in txns && InSeries(key, mo, c)(t);
      assert InMonth(key, mo)(t) == Some(c);
    }
  }

  /** The running total of a series in a month is the sum of that series' amounts in that month. */
  lemma SeriesTotal(txns: seq<Txn>, key: Txn -> Option<string>, mo: int, c: string)
    ensures SumWhere(txns, InMonth(key, mo), c, Amount) == SumBy(Filter(txns, InSeries(key, mo, c)), Amount)
  {
    SumWhereFiltered(txns, InMonth(key, mo), c, Amount);
    FilterCongruence(txns, KeyIs(InMonth(key, mo), Some(c)), InSeries(key, mo, c));
  }

  /** A month is charted exactly when a charted transaction falls in it. */
  lemma ChartedMonths(txns: seq<Txn>, key: Txn -> Option<string>)
    ensures forall mo :: mo in KeysOf(txns, MonthOf(key)) <==> exists t :: t in txns && key(t).Some? && MonthIndex(t.date) == mo
  {
    forall mo | exists t :: t in txns && key(t).Some? && MonthIndex(t.date) == mo
      ensures mo in KeysOf(txns, MonthOf(key))
    {
      var t :| t in txns && key(t).Some? && MonthIndex(t.date) == mo;
      assert MonthOf(key)(t) == Some(mo);
    }
  }

  /** The content of each kept row: the series of its month and their totals. */
  lemma TrendRowContent(txns: seq<Txn>, key: Txn -> Option<string>, m: map<int, map<string, int>>, mo: int)
    requires mo in m && m[mo].Keys == KeysOf(txns, InMonth(key, mo))
    requires forall c :: c in m[mo] ==> m[mo][c] == SumWhere(txns, InMonth(key, mo), c, Amount)
    ensures forall c :: c in m[mo] <==> exists t :: t in txns && InSeries(key, mo, c)(t)
    ensures forall c :: c in m[mo] ==> m[mo][c] == SumBy(Filter(txns, InSeries(key, mo, c)), Amount)
  {
    SeriesKeys(txns, key, mo);
    forall c | c in m[mo] ensures m[mo][c] == SumBy(Filter(txns, InSeries(key, mo, c)), Amount) {
      SeriesTotal(txns, key, mo, c);
    }
  }

  /** How the rows are made from the month dictionary. */
  ghost predicate Built(m: map<int, map<string, int>>, months: seq<int>,
                        unsorted: seq<TrendRow>, sorted: seq<TrendRow>, rows: seq<TrendRow>) {
    && (forall i :: 0 <= i < |months| ==> months[i] in m)
    && unsorted == MonthRows(months, m)
    && sorted == SortDesc(unsorted, Earlier)
    && rows == LastMonths(sorted)
  }

  /** How the rows are made from the grouping state. */
  ghost predicate Charted(txns: seq<Txn>, key: Txn -> Option<string>, m: map<int, map<string, int>>, months: seq<int>,
                          unsorted: seq<TrendRow>, sorted: seq<TrendRow>, rows: seq<TrendRow>) {
    Grid(txns, key, m, months) && Built(m, months, unsorted, sorted, rows)
  }

  /** The rows of distinct months are rows of distinct months, each holding its month's series. */
  lemma MonthRowsOf(months: seq<int>, m: map<int, map<string, int>>)
    requires Distinct(months) && forall i :: 0 <= i < |months| ==> months[i] in m
    ensures DistinctBy(MonthRows(months, m), RowMonth)
    ensures forall x :: x in MonthRows(months, m) ==> x.month in m && x.totals == m[x.month]
  {
  }

  lemma MonthsListed(txns: seq<Txn>, key: Txn -> Option<string>, m: map<int, map<string, int>>, months: seq<int>)
    requires Grid(txns, key, m, months)
    ensures forall i :: 0 <= i < |months| ==> months[i] in m
  {
    assert forall mo :: mo in m <==> mo in months;
    forall i | 0 <= i < |months| ensures months[i] in m {
      var mo := months[i];
      assert mo in months;
      assert mo in m;
    }
  }

  /** Each kept row is the row of a month of the grouping. */
  lemma ChartedRowsFromGrid(m: map<int, map<string, int>>, months: seq<int>,
                            unsorted: seq<TrendRow>, sorted: seq<TrendRow>, rows: seq<TrendRow>)
    requires Distinct(months) && Built(m, months, unsorted, sorted, rows)
    ensures Ascending(sorted) && Ascending(rows)
    ensures forall j :: 0 <= j < |rows| ==> rows[j].month in m && rows[j].totals == m[rows[j].month]
  {
    MonthRowsOf(months, m);
    SortedMonths(unsorted, sorted);
    LastMonthsKeep(sorted);
    forall j | 0 <= j < |rows|
      ensures rows[j].month in m && rows[j].totals == m[rows[j].month]
    {
      assert rows[j] in sorted;
      assert rows[j] in unsorted;
    }
  }

  /** Each row whose month is a key of the grouping has a charted transaction in that month. */
  lemma RowsHaveTxns(txns: seq<Txn>, key: Txn -> Option<string>, m: map<int, map<string, int>>, rows: seq<TrendRow>)
    requires m.Keys == KeysOf(txns, MonthOf(key))
    requires forall j :: 0 <= j < |rows| ==> rows[j].month in m
    ensures forall j :: 0 <= j < |rows| ==> MonthCharted(txns, key, rows[j].month)
  {
    ChartedMonths(txns, key);
    forall j | 0 <= j < |rows| ensures MonthCharted(txns, key, rows[j].month) {
      assert rows[j].month in KeysOf(txns, MonthOf(key));
    }
  }

  /** The kept months: at most twelve, ascending, charted, and the latest ones. */
  lemma ChartedMonthsKept(txns: seq<Txn>, key: Txn -> Option<string>, m: map<int, map<string, int>>, months: seq<int>,
                          unsorted: seq<TrendRow>, sorted: seq<TrendRow>, rows: seq<TrendRow>)
    requires Charted(txns, key, m, months, unsorted, sorted, rows)
    ensures ChartMonths(txns, key, rows)
  {
    ChartedRowsFromGrid(m, months, unsorted, sorted, rows);
    RowsHaveTxns(txns, key, m, rows);
    forall t | t in txns && key(t).Some?
      ensures (exists j :: 0 <= j < |rows| && rows[j].month == MonthIndex(t.date)) ||
              (|rows| == MaxMonths && MonthIndex(t.date) < rows[0].month)
    {
      LatestKept(txns, key, m, months, unsorted, sorted, rows, t);
    }
  }

  lemma LatestKept(txns: seq<Txn>, key: Txn -> Option<string>, m: map<int, map<string, int>>, months: seq<int>,
                   unsorted: seq<TrendRow>, sorted: seq<TrendRow>, rows: seq<TrendRow>, t: Txn)
    requires Charted(txns, key, m, months, unsorted, sorted, rows)
    requires t in txns && key(t).Some?
    ensures (exists j :: 0 <= j < |rows| && rows[j].month == MonthIndex(t.date)) ||
            (|rows| == MaxMonths && MonthIndex(t.date) < rows[0].month)
  {
    assert DistinctBy(unsorted, RowMonth);
    SortedMonths(unsorted, sorted);
    LastMonthsKeep(sorted);
    var mo := MonthIndex(t.date);
    assert MonthOf(key)(t) == Some(mo);
    assert mo in months;
    var i :| 0 <= i < |months| && months[i] == mo;
    assert unsorted[i] in sorted;
    if unsorted[i] in rows {
      var j :| 0 <= j < |rows| && rows[j] == unsorted[i];
    }
  }

  /** Each kept row holds the series of its month and their totals. */
  lemma ChartedTotals(txns: seq<Txn>, key: Txn -> Option<string>, m: map<int, map<string, int>>, months: seq<int>,
                      unsorted: seq<TrendRow>, sorted: seq<TrendRow>, rows: seq<TrendRow>)
    requires Charted(txns, key, m, months, unsorted, sorted, rows)
    ensures ChartTotals(txns, key, rows)
  {
    ChartedRowsFromGrid(m, months, unsorted, sorted, rows);
    forall j | 0 <= j < |rows|
      ensures forall c :: c in rows[j].totals <==> exists t :: t in txns && InSeries(key, rows[j].month, c)(t)
      ensures forall c :: c in rows[j].totals ==> rows[j].totals[c] == SumBy(Filter(txns, InSeries(key, rows[j].month, c)), Amount)
    {
      TrendRowContent(txns, key, m, rows[j].month);
    }
  }

  /**
   * The chart of the series `key` picks out: at most twelve rows in strictly
   * ascending month order, one per month with a charted transaction, the
   * latest ones (a charted month without a row is earlier than all twelve
   * rows); each row holds, for every series with a transaction in that
   * month, the sum of those transactions' amounts.
   */
  ghost predicate Chart(txns: seq<Txn>, key: Txn -> Option<string>, rows: seq<TrendRow>) {
    ChartMonths(txns, key, rows) && ChartTotals(txns, key, rows)
  }

  /** Some charted transaction falls in month `mo`. */
  ghost predicate MonthCharted(txns: seq<Txn>, key: Txn -> Option<string>, mo: int) {
    exists t :: t in txns && key(t).Some? && MonthIndex(t.date) == mo
  }

  ghost predicate ChartMonths(txns: seq<Txn>, key: Txn -> Option<string>, rows: seq<TrendRow>) {
    && |rows| <= MaxMonths && Ascending(rows)
    && (forall j :: 0 <= j < |rows| ==> MonthCharted(txns, key, rows[j].month))
    && (forall t :: t in txns && key(t).Some? ==>
          (exists j :: 0 <= j < |rows| && rows[j].month == MonthIndex(t.date)) ||
          (|rows| == MaxMonths && MonthIndex(t.date) < rows[0].month))
  }

  ghost predicate ChartTotals(txns: seq<Txn>, key: Txn -> Option<string>, rows: seq<TrendRow>) {
    && (forall j, c :: 0 <= j < |rows| ==>
          (c in rows[j].totals <==> exists t :: t in txns && InSeries(key, rows[j].month, c)(t)))
    && (forall j, c :: 0 <= j < |rows| && c in rows[j].totals ==>
          rows[j].totals[c] == SumBy(Filter(txns, InSeries(key, rows[j].month, c)), Amount))
  }

  /** Group, order by month, keep the last twelve. */
  method MonthlyTrend(txns: seq<Txn>, key: Txn -> Option<string>) returns (rows: seq<TrendRow>)
    ensures Chart(txns, key, rows)
  {
    var m, months := GroupByMonth(txns, key);
    assert Grid(txns, key, m, months);
    MonthsListed(txns, key, m, months);
    var unsorted := MonthRows(months, m);
    var sorted := SortDesc(unsorted, Earlier);
    rows := LastMonths(sorted);
    assert Charted(txns, key, m, months, unsorted, sorted, rows);
    ChartedMonthsKept(txns, key, m, months, unsorted, sorted, rows);
    ChartedTotals(txns, key, m, months, unsorted, sorted, rows);
  }

  /** `trendData`'s series: every expense, by its category. */
  function CategorySeries(t: Txn): Option<string> {
    if t.kind == Expense then Some(t.catId) else None
  }

  /** `trendSubData`'s series: the expenses of category `cat` that name a sub-category, by that sub-category. */
  function SubSeries(cat: string): Txn -> Option<string> {
    (t: Txn) => if t.kind == Expense && t.catId == cat && Truthy(t.subCatId) then t.subCatId else None
  }

  /** `trendData`: the monthly expense chart by category. */
  method TrendData(txns: seq<Txn>) returns (rows: seq<TrendRow>)
    ensures Chart(txns, CategorySeries, rows)
  {
    rows := MonthlyTrend(txns, CategorySeries);
  }

  /**
   * `trendSubData`: the monthly chart of the selected category by
   * sub-category; empty when no category is selected, when the selected
   * category is not found, or when it has no sub-categories.
   */
  method TrendSubData(txns: seq<Txn>, expCats: seq<ExpCat>, trendCatId: Option<string>) returns (rows: seq<TrendRow>)
    ensures !Truthy(trendCatId) ==> rows == []
    ensures Truthy(trendCatId) && (forall c :: c in expCats ==> c.id != trendCatId.value) ==> rows == []
    ensures Truthy(trendCatId) && (exists c :: c in expCats && c.id == trendCatId.value) ==>
              var c := expCats[FirstIndex(expCats, ExpCatId, trendCatId.value)];
              if c.sub == [] then rows == [] else Chart(txns, SubSeries(trendCatId.value), rows)
  {
    if !Truthy(trendCatId) {
      return [];
    }
    var i := FirstIndex(expCats, ExpCatId, trendCatId.value);
    if i < 0 || |expCats[i].sub| == 0 {
      return [];
    }
    rows := MonthlyTrend(txns, SubSeries(trendCatId.value));
  }
}
