/** explore_num_data and explore_cat_data (explore_util.py): select the
    columns of one kind, compute one profile row per column, and build its
    three frequency tables in a loop. The caller's table is a value and is
    never changed. */
module Explore {
  import opened Wrappers
  import opened Order
  import opened Table
  import opened ColumnStats
  import opened Frequency

  /** describe() raises on a table without numeric columns; dividing a
      Python float by a row count of zero raises ZeroDivisionError. */
  datatype ProfileError = NoNumericColumns | ZeroDivision

  datatype NumericReport = NumericReport(
    columns: seq<string>,
    profiles: seq<NumericProfile>,
    freq: seq<seq<FreqRow<real>>>,
    firstValues: seq<seq<FreqRow<real>>>,
    lastValues: seq<seq<FreqRow<real>>>)

  datatype CategoricalReport = CategoricalReport(
    columns: seq<string>,
    profiles: seq<CategoricalProfile>,
    freq: seq<seq<FreqRow<string>>>,
    firstValues: seq<seq<FreqRow<string>>>,
    lastValues: seq<seq<FreqRow<string>>>)

  /** Which of the three frequency tables: sorted by count, by value
      ascending, or by value descending. */
  datatype Ordering = ByFrequency | Ascending | Descending

  function NumberTable(o: Ordering, c: Column, total: nat, n: int): seq<FreqRow<real>>
    requires total > 0
  {
    RealLessIsStrictTotalOrder();
    if o == ByFrequency then MostFrequent(Present(Numbers(c)), RealLess, total, n)
    else if o == Ascending then FirstValues(Present(Numbers(c)), RealLess, total, n)
    else LastValues(Present(Numbers(c)), RealLess, total, n)
  }

  function TextTable(o: Ordering, c: Column, total: nat, n: int): seq<FreqRow<string>>
    requires total > 0
  {
    LexLessIsStrictTotalOrder();
    if o == ByFrequency then MostFrequent(Present(Texts(c)), LexLess, total, n)
    else if o == Ascending then FirstValues(Present(Texts(c)), LexLess, total, n)
    else LastValues(Present(Texts(c)), LexLess, total, n)
  }

  /** One of the profiler's loops: the table of every column, appended in
      column order. */
  method Tables<T>(columns: seq<Column>, table: Column --> seq<FreqRow<T>>) returns (tables: seq<seq<FreqRow<T>>>)
    requires forall c :: c in columns ==> table.requires(c)
    ensures |tables| == |columns|
    ensures forall i :: 0 <= i < |columns| ==> tables[i] == table(columns[i])
  {
    tables := [];
    for i := 0 to |columns|
      invariant |tables| == i
      invariant forall k :: 0 <= k < i ==> tables[k] == table(columns[k])
    {
      tables := tables + [table(columns[i])];
    }
  }

  // ---------------------------------------------------------------------
  // Numeric columns

  /** What explore_num_data returns (or raises) for a table and n. */
  function NumericReportOf(data: Frame, n: int): (r: Result<NumericReport, ProfileError>)
    requires Rectangular(data)
    ensures r.Failure? <==> NumericColumns(data) == [] || data.rows == 0
    ensures r.Failure? ==> r.error == if NumericColumns(data) == [] then NoNumericColumns else ZeroDivision
    ensures r.Success? ==>
      var k := |NumericColumns(data)|;
      && r.value.columns == Names(NumericColumns(data))
      && |r.value.profiles| == k && |r.value.freq| == k
      && |r.value.firstValues| == k && |r.value.lastValues| == k
  {
    var columns := NumericColumns(data);
    NumericColumnsOfFrame(data);
    RealLessIsStrictTotalOrder();
    if columns == [] then Failure(NoNumericColumns)
    else if data.rows == 0 then Failure(ZeroDivision)
    else
      Success(NumericReport(
        Names(columns),
        seq(|columns|, i requires 0 <= i < |columns| => NumericProfileOf(Numbers(columns[i]))),
        seq(|columns|, i requires 0 <= i < |columns| => NumberTable(ByFrequency, columns[i], data.rows, n)),
        seq(|columns|, i requires 0 <= i < |columns| => NumberTable(Ascending, columns[i], data.rows, n)),
        seq(|columns|, i requires 0 <= i < |columns| => NumberTable(Descending, columns[i], data.rows, n))))
  }

  /** The profile statistics as list comprehensions, the frequency tables
      appended one column at a time. */
  method ExploreNumData(data: Frame, n: int) returns (out: Result<NumericReport, ProfileError>)
    requires Rectangular(data)
    ensures out == NumericReportOf(data, n)
  {
    var columns := NumericColumns(data);
    if columns == [] {
      return Failure(NoNumericColumns);
    }
    var total := data.rows;
    if total == 0 {
      return Failure(ZeroDivision);
    }
    NumericColumnsOfFrame(data);
    RealLessIsStrictTotalOrder();
    var profiles := seq(|columns|, i requires 0 <= i < |columns| => NumericProfileOf(Numbers(columns[i])));
    var freq := Tables(columns, c requires total > 0 => NumberTable(ByFrequency, c, total, n));
    var first := Tables(columns, c requires total > 0 => NumberTable(Ascending, c, total, n));
    var last := Tables(columns, c requires total > 0 => NumberTable(Descending, c, total, n));
    assert freq == seq(|columns|, i requires 0 <= i < |columns| => NumberTable(ByFrequency, columns[i], total, n));
    assert first == seq(|columns|, i requires 0 <= i < |columns| => NumberTable(Ascending, columns[i], total, n));
    assert last == seq(|columns|, i requires 0 <= i < |columns| => NumberTable(Descending, columns[i], total, n));
    out := Success(NumericReport(Names(columns), profiles, freq, first, last));
  }

  /** The three tables of one numeric column: at most n rows each, of
      distinct counted non-null values, by count, ascending and descending. */
  lemma NumberTables(c: Column, total: nat, n: int)
    requires total > 0
    ensures var values := Present(Numbers(c));
      var size := HeadSize(|set x | x in values|, n);
      var freq := NumberTable(ByFrequency, c, total, n);
      var first := NumberTable(Ascending, c, total, n);
      var last := NumberTable(Descending, c, total, n);
      && |freq| == size && Counted(freq, values, total)
      && (forall i, j :: 0 <= i < j < |freq| ==> freq[i].count >= freq[j].count)
      && |first| == size && Counted(first, values, total)
      && (forall i, j :: 0 <= i < j < |first| ==> first[i].value < first[j].value)
      && |last| == size && Counted(last, values, total)
      && (forall i, j :: 0 <= i < j < |last| ==> last[i].value > last[j].value)
  {
    var values := Present(Numbers(c));
    var first := NumberTable(Ascending, c, total, n);
    var last := NumberTable(Descending, c, total, n);
    assert NumberTable(ByFrequency, c, total, n) == MostFrequent(values, RealLess, total, n) by {
      RealLessIsStrictTotalOrder();
    }
    assert first == FirstValues(values, RealLess, total, n) by {
      RealLessIsStrictTotalOrder();
    }
    assert last == LastValues(values, RealLess, total, n) by {
      RealLessIsStrictTotalOrder();
    }
    RealLessIsStrictTotalOrder();
    MostFrequentTable(values, RealLess, total, n);
    FirstValuesTable(values, RealLess, total, n);
    LastValuesTable(values, RealLess, total, n);
  }

  /** Entry k of each list of a numeric report is computed from column k. */
  lemma NumericReportAt(data: Frame, n: int, k: nat)
    requires Rectangular(data) && NumericReportOf(data, n).Success?
    requires k < |NumericColumns(data)|
    ensures var c := NumericColumns(data)[k];
      && |Numbers(c)| == data.rows > 0
      && NumericReportOf(data, n).value.profiles[k] == NumericProfileOf(Numbers(c))
      && NumericReportOf(data, n).value.freq[k] == NumberTable(ByFrequency, c, data.rows, n)
      && NumericReportOf(data, n).value.firstValues[k] == NumberTable(Ascending, c, data.rows, n)
      && NumericReportOf(data, n).value.lastValues[k] == NumberTable(Descending, c, data.rows, n)
  {
    NumericColumnsOfFrame(data);
    assert NumericColumns(data)[k] in NumericColumns(data);
  }

  /** Column k of a numeric report: its percentages lie in [0, 100] and add
      up to 100, and each of its three tables has at most n rows of
      distinct, counted non-null values in the table's order. */
  lemma NumericColumnReport(data: Frame, n: int, k: nat)
    requires Rectangular(data) && NumericReportOf(data, n).Success?
    requires k < |NumericColumns(data)|
    ensures var report := NumericReportOf(data, n).value;
      var values := Present(Numbers(NumericColumns(data)[k]));
      var size := HeadSize(|set x | x in values|, n);
      && report.profiles[k].nullPerc + report.profiles[k].zeroPerc
         + report.profiles[k].posPerc + report.profiles[k].negPerc == 100.0
      && |report.freq[k]| == size && Counted(report.freq[k], values, data.rows)
      && (forall i, j :: 0 <= i < j < |report.freq[k]| ==> report.freq[k][i].count >= report.freq[k][j].count)
      && |report.firstValues[k]| == size && Counted(report.firstValues[k], values, data.rows)
      && (forall i, j :: 0 <= i < j < |report.firstValues[k]| ==>
            report.firstValues[k][i].value < report.firstValues[k][j].value)
      && |report.lastValues[k]| == size && Counted(report.lastValues[k], values, data.rows)
      && (forall i, j :: 0 <= i < j < |report.lastValues[k]| ==>
            report.lastValues[k][i].value > report.lastValues[k][j].value)
  {
    var columns := NumericColumns(data);
    var report := NumericReportOf(data, n).value;
    var cells := Numbers(columns[k]);
    var values := Present(cells);
    var size := HeadSize(|set x | x in values|, n);
    NumericReportAt(data, n, k);
    NumericPercentages(cells);
    NumberTables(columns[k], data.rows, n);
  }

  // ---------------------------------------------------------------------
  // Text columns

  /** What explore_cat_data returns (or raises) for a table and n: without
      text columns nothing is divided and the report is empty. */
  function CategoricalReportOf(data: Frame, n: int): (r: Result<CategoricalReport, ProfileError>)
    requires Rectangular(data)
    ensures r.Failure? <==> CategoricalColumns(data) != [] && data.rows == 0
    ensures r.Failure? ==> r.error == ZeroDivision
    ensures r.Success? ==>
      var k := |CategoricalColumns(data)|;
      && r.value.columns == Names(CategoricalColumns(data))
      && |r.value.profiles| == k && |r.value.freq| == k
      && |r.value.firstValues| == k && |r.value.lastValues| == k
  {
    var columns := CategoricalColumns(data);
    CategoricalColumnsOfFrame(data);
    LexLessIsStrictTotalOrder();
    if columns != [] && data.rows == 0 then Failure(ZeroDivision)
    else
      Success(CategoricalReport(
        Names(columns),
        seq(|columns|, i requires 0 <= i < |columns| => CategoricalProfileOf(Texts(columns[i]))),
        seq(|columns|, i requires 0 <= i < |columns| => TextTable(ByFrequency, columns[i], data.rows, n)),
        seq(|columns|, i requires 0 <= i < |columns| => TextTable(Ascending, columns[i], data.rows, n)),
        seq(|columns|, i requires 0 <= i < |columns| => TextTable(Descending, columns[i], data.rows, n))))
  }

  method ExploreCatData(data: Frame, n: int) returns (out: Result<CategoricalReport, ProfileError>)
    requires Rectangular(data)
    ensures out == CategoricalReportOf(data, n)
  {
    var columns := CategoricalColumns(data);
    var total := data.rows;
    if columns != [] && total == 0 {
      return Failure(ZeroDivision);
    }
    CategoricalColumnsOfFrame(data);
    LexLessIsStrictTotalOrder();
    var profiles := seq(|columns|, i requires 0 <= i < |columns| => CategoricalProfileOf(Texts(columns[i])));
    var freq := Tables(columns, c requires total > 0 => TextTable(ByFrequency, c, total, n));
    var first := Tables(columns, c requires total > 0 => TextTable(Ascending, c, total, n));
    var last := Tables(columns, c requires total > 0 => TextTable(Descending, c, total, n));
    assert freq == seq(|columns|, i requires 0 <= i < |columns| => TextTable(ByFrequency, columns[i], total, n));
    assert first == seq(|columns|, i requires 0 <= i < |columns| => TextTable(Ascending, columns[i], total, n));
    assert last == seq(|columns|, i requires 0 <= i < |columns| => TextTable(Descending, columns[i], total, n));
    out := Success(CategoricalReport(Names(columns), profiles, freq, first, last));
  }

  /** The three tables of one text column: at most n rows each, of
      distinct counted non-null values, by count, ascending and descending. */
  lemma TextTables(c: Column, total: nat, n: int)
    requires total > 0
    ensures var values := Present(Texts(c));
      var size := HeadSize(|set x | x in values|, n);
      var freq := TextTable(ByFrequency, c, total, n);
      var first := TextTable(Ascending, c, total, n);
      var last := TextTable(Descending, c, total, n);
      && |freq| == size && Counted(freq, values, total)
      && (forall i, j :: 0 <= i < j < |freq| ==> freq[i].count >= freq[j].count)
      && |first| == size && Counted(first, values, total)
      && (forall i, j :: 0 <= i < j < |first| ==> LexLess(first[i].value, first[j].value))
      && |last| == size && Counted(last, values, total)
      && (forall i, j :: 0 <= i < j < |last| ==> LexLess(last[j].value, last[i].value))
  {
    var values := Present(Texts(c));
    assert TextTable(ByFrequency, c, total, n) == MostFrequent(values, LexLess, total, n) by {
      LexLessIsStrictTotalOrder();
    }
    assert TextTable(Ascending, c, total, n) == FirstValues(values, LexLess, total, n) by {
      LexLessIsStrictTotalOrder();
    }
    assert TextTable(Descending, c, total, n) == LastValues(values, LexLess, total, n) by {
      LexLessIsStrictTotalOrder();
    }
    LexLessIsStrictTotalOrder();
    MostFrequentTable(values, LexLess, total, n);
    FirstValuesTable(values, LexLess, total, n);
    LastValuesTable(values, LexLess, total, n);
  }

  /** Entry k of each list of a categorical report is computed from column k. */
  lemma CategoricalReportAt(data: Frame, n: int, k: nat)
    requires Rectangular(data) && CategoricalReportOf(data, n).Success?
    requires k < |CategoricalColumns(data)|
    ensures var c := CategoricalColumns(data)[k];
      && |Texts(c)| == data.rows > 0
      && CategoricalReportOf(data, n).value.profiles[k] == CategoricalProfileOf(Texts(c))
      && CategoricalReportOf(data, n).value.freq[k] == TextTable(ByFrequency, c, data.rows, n)
      && CategoricalReportOf(data, n).value.firstValues[k] == TextTable(Ascending, c, data.rows, n)
      && CategoricalReportOf(data, n).value.lastValues[k] == TextTable(Descending, c, data.rows, n)
  {
    CategoricalColumnsOfFrame(data);
    assert CategoricalColumns(data)[k] in CategoricalColumns(data);
  }

  /** Column k of a categorical report: row_count and the length bounds as
      the profile states them, and three tables of at most n counted
      non-null values in the table's order. */
  lemma CategoricalColumnReport(data: Frame, n: int, k: nat)
    requires Rectangular(data) && CategoricalReportOf(data, n).Success?
    requires k < |CategoricalColumns(data)|
    ensures var report := CategoricalReportOf(data, n).value;
      var cells := Texts(CategoricalColumns(data)[k]);
      var values := Present(cells);
      var size := HeadSize(|set x | x in values|, n);
      && report.profiles[k].rowCount == |values|
      && report.profiles[k].minLength <= report.profiles[k].maxLength
      && report.profiles[k].nullPerc + report.profiles[k].emptyPerc <= 100.0
      && |report.freq[k]| == size && Counted(report.freq[k], values, data.rows)
      && (forall i, j :: 0 <= i < j < |report.freq[k]| ==> report.freq[k][i].count >= report.freq[k][j].count)
      && |report.firstValues[k]| == size && Counted(report.firstValues[k], values, data.rows)
      && (forall i, j :: 0 <= i < j < |report.firstValues[k]| ==>
            LexLess(report.firstValues[k][i].value, report.firstValues[k][j].value))
      && |report.lastValues[k]| == size && Counted(report.lastValues[k], values, data.rows)
      && (forall i, j :: 0 <= i < j < |report.lastValues[k]| ==>
            LexLess(report.lastValues[k][j].value, report.lastValues[k][i].value))
  {
    var columns := CategoricalColumns(data);
    var report := CategoricalReportOf(data, n).value;
    var cells := Texts(columns[k]);
    var values := Present(cells);
    var size := HeadSize(|set x | x in values|, n);
    CategoricalReportAt(data, n, k);
    CategoricalPercentages(cells);
    TextTables(columns[k], data.rows, n);
  }
}
