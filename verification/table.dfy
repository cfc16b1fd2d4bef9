/**
  The dataset the report is built from, as the CSV loader hands it over:
  an ordered sequence of named columns, each tagged Numeric or Text once at
  load time, each holding one optional cell per row.
 */
module Table {
  import opened Wrappers

  /** A present cell value: a number, or a piece of text. */
  datatype Value = Num(n: real) | Str(s: string)

  /** A cell; `None` is a missing value (NaN / empty field). */
  type Cell = Option<Value>

  /** The inferred type of a column: numeric dtypes versus everything else. */
  datatype Tag = Numeric | Text

  datatype Column = Column(name: string, tag: Tag, cells: seq<Cell>)

  /** `rows` is kept explicitly so that a dataset without columns still has a row count. */
  datatype Dataset = Dataset(columns: seq<Column>, rows: nat)

  /** Every column has exactly one cell per row. */
  predicate Valid(ds: Dataset)
  {
    forall j :: 0 <= j < |ds.columns| ==> |ds.columns[j].cells| == ds.rows
  }

  predicate DistinctNames(cols: seq<Column>)
  {
    forall i, j :: 0 <= i < j < |cols| ==> cols[i].name != cols[j].name
  }

  predicate NonEmptyNames(cols: seq<Column>)
  {
    forall j :: 0 <= j < |cols| ==> cols[j].name != ""
  }

  /** A numeric column holds numbers only (or missing cells). */
  predicate WellTyped(cols: seq<Column>)
  {
    forall j, i :: 0 <= j < |cols| && cols[j].tag == Numeric && 0 <= i < |cols[j].cells| && cols[j].cells[i].Some?
      ==> cols[j].cells[i].value.Num?
  }

  /**
    What the CSV loader guarantees: rectangular, header names distinct
    (duplicates are renamed) and non-empty (blank headers get a generated
    name), numeric columns hold numbers.
   */
  predicate Loaded(ds: Dataset)
  {
    Valid(ds) && DistinctNames(ds.columns) && NonEmptyNames(ds.columns) && WellTyped(ds.columns)
  }

  function Names(cols: seq<Column>): seq<string>
  {
    seq(|cols|, j requires 0 <= j < |cols| => cols[j].name)
  }

  /** Row `i`: one cell from every column, in column order. */
  function Row(ds: Dataset, i: nat): seq<Cell>
    requires Valid(ds) && i < ds.rows
  {
    seq(|ds.columns|, j requires 0 <= j < |ds.columns| => ds.columns[j].cells[i])
  }

  function Rows(ds: Dataset): seq<seq<Cell>>
    requires Valid(ds)
  {
    seq(ds.rows, i requires 0 <= i < ds.rows => Row(ds, i))
  }

  /**
    Label lookup `df[name]`. Under distinct names (`Loaded`) this is the one
    column with that name (`ColumnIndexUnique`); with repeated names the model
    takes the first, where pandas would return all of them.
   */
  function ColumnIndex(cols: seq<Column>, name: string): (r: Option<nat>)
    ensures r.Some? ==> r.value < |cols| && cols[r.value].name == name
    ensures r.Some? ==> forall k :: 0 <= k < r.value ==> cols[k].name != name
    ensures r.None? <==> forall k :: 0 <= k < |cols| ==> cols[k].name != name
  {
    if |cols| == 0 then None
    else if cols[0].name == name then Some(0)
    else match ColumnIndex(cols[1..], name)
      case None => None
      case Some(k) => Some(k + 1)
  }

  /** The cells of the column labelled `name`. */
  function CellsOf(ds: Dataset, name: string): (r: seq<Cell>)
    requires Valid(ds) && ColumnIndex(ds.columns, name).Some?
    ensures |r| == ds.rows
  {
    ds.columns[ColumnIndex(ds.columns, name).value].cells
  }

  /** Under distinct names, the label lookup of column j's name finds column j. */
  lemma ColumnIndexUnique(cols: seq<Column>, j: nat)
    requires DistinctNames(cols) && j < |cols|
    ensures ColumnIndex(cols, cols[j].name) == Some(j)
  {
  }
}
