/** The input table of the column profiler: named columns of equal length,
    each tagged with the kind `select_dtypes` sorts it into. */
module Table {
  import opened Wrappers

  /** A column's cells: float64/int64 columns hold numbers, string, object
      and category columns hold text, and every other dtype is only a
      length to the profiler. A null cell is None. */
  datatype ColumnData =
    | Numeric(numbers: seq<Option<real>>)
    | Categorical(texts: seq<Option<string>>)
    | Other(size: nat)

  datatype Column = Column(name: string, data: ColumnData)

  datatype Frame = Frame(rows: nat, columns: seq<Column>)

  function Size(d: ColumnData): nat {
    match d
    case Numeric(numbers) => |numbers|
    case Categorical(texts) => |texts|
    case Other(size) => size
  }

  /** Every column has one cell per row. */
  ghost predicate Rectangular(f: Frame) {
    forall c :: c in f.columns ==> Size(c.data) == f.rows
  }

  predicate IsNumeric(c: Column) {
    c.data.Numeric?
  }

  predicate IsCategorical(c: Column) {
    c.data.Categorical?
  }

  /** The columns satisfying keep, in their original order. */
  function Select(columns: seq<Column>, keep: Column -> bool): (r: seq<Column>)
    ensures forall c :: c in r ==> keep(c)
  {
    if columns == [] then []
    else (if keep(columns[0]) then [columns[0]] else []) + Select(columns[1..], keep)
  }

  /** Selection keeps every column satisfying keep, as often as it occurs,
      and nothing else. */
  lemma {:induction false} SelectCounts(columns: seq<Column>, keep: Column -> bool)
    ensures forall c :: multiset(Select(columns, keep))[c] == if keep(c) then multiset(columns)[c] else 0
  {
    if columns != [] {
      assert columns == [columns[0]] + columns[1..];
      SelectCounts(columns[1..], keep);
    }
  }

  /** Selection keeps the relative order of the columns: selecting from two
      consecutive parts of a table gives the two selections one after the
      other. */
  lemma {:induction false} SelectConcat(a: seq<Column>, b: seq<Column>, keep: Column -> bool)
    ensures Select(a + b, keep) == Select(a, keep) + Select(b, keep)
  {
    if a == [] {
      assert a + b == b;
    } else {
      var head := if keep(a[0]) then [a[0]] else [];
      assert (a + b)[0] == a[0];
      assert (a + b)[1..] == a[1..] + b;
      assert Select(a + b, keep) == head + Select(a[1..] + b, keep);
      assert Select(a, keep) == head + Select(a[1..], keep);
      SelectConcat(a[1..], b, keep);
      assert head + (Select(a[1..], keep) + Select(b, keep)) == (head + Select(a[1..], keep)) + Select(b, keep);
    }
  }

  /** `data.select_dtypes(include=['float64', 'int64'])` */
  function NumericColumns(f: Frame): seq<Column> {
    Select(f.columns, IsNumeric)
  }

  /** `data.select_dtypes(include=['string', 'object', 'category'])` */
  function CategoricalColumns(f: Frame): seq<Column> {
    Select(f.columns, IsCategorical)
  }

  function Numbers(c: Column): seq<Option<real>> {
    if c.data.Numeric? then c.data.numbers else []
  }

  function Texts(c: Column): seq<Option<string>> {
    if c.data.Categorical? then c.data.texts else []
  }

  function Names(columns: seq<Column>): seq<string> {
    seq(|columns|, i requires 0 <= i < |columns| => columns[i].name)
  }

  /** The selected numeric columns are exactly the table's numeric columns,
      each with one cell per row. */
  lemma NumericColumnsOfFrame(f: Frame)
    requires Rectangular(f)
    ensures forall c :: c in NumericColumns(f) ==> |Numbers(c)| == f.rows
    ensures forall c :: c in NumericColumns(f) <==> c in f.columns && c.data.Numeric?
  {
    SelectCounts(f.columns, IsNumeric);
    forall c ensures c in NumericColumns(f) <==> c in f.columns && c.data.Numeric? {
      assert multiset(NumericColumns(f))[c] == if IsNumeric(c) then multiset(f.columns)[c] else 0;
    }
  }

  /** The selected categorical columns are exactly the table's string,
      object and category columns, each with one cell per row. */
  lemma CategoricalColumnsOfFrame(f: Frame)
    requires Rectangular(f)
    ensures forall c :: c in CategoricalColumns(f) ==> |Texts(c)| == f.rows
    ensures forall c :: c in CategoricalColumns(f) <==> c in f.columns && c.data.Categorical?
  {
    SelectCounts(f.columns, IsCategorical);
    forall c ensures c in CategoricalColumns(f) <==> c in f.columns && c.data.Categorical? {
      assert multiset(CategoricalColumns(f))[c] == if IsCategorical(c) then multiset(f.columns)[c] else 0;
    }
  }
}
