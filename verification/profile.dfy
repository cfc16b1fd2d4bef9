/**
  `build_summary`: row and column counts, the total of missing cells, the
  (optional) descriptive-statistics table of the numeric columns, and the
  suggested chart pair.
 */
module Profile {
  import opened Wrappers
  import opened Table
  import opened Selector

  /** The fixed part of the summary; `generatedAt` is the caller's clock reading. */
  datatype Summary = Summary(rows: nat, cols: nat, missingTotal: nat, generatedAt: string)

  /**
    The `describe()` table, reduced to the names of the columns it
    describes; its floating-point contents are not modelled.
   */
  datatype StatsTable = StatsTable(columns: seq<string>)

  /** Everything `build_summary` returns. */
  datatype SummaryResult = SummaryResult(summary: Summary, stats: Option<StatsTable>, selection: Option<(string, string)>)

  function IsMissing(c: Cell): nat
  {
    if c.None? then 1 else 0
  }

  /** `isna().sum()` of one column. */
  function MissingIn(cells: seq<Cell>): (r: nat)
    ensures r <= |cells|
  {
    if |cells| == 0 then 0 else IsMissing(cells[0]) + MissingIn(cells[1..])
  }

  /** What `MissingIn` counts: the occurrences of a missing cell in the column. */
  lemma {:induction false} MissingInCountsMissing(cells: seq<Cell>)
    ensures MissingIn(cells) == multiset(cells)[None]
  {
    if |cells| > 0 {
      MissingInCountsMissing(cells[1..]);
      assert cells == [cells[0]] + cells[1..];
    }
  }

  /**
    `isna().sum().sum()`: the per-column counts added up. It is zero exactly
    when no cell anywhere is missing.
   */
  function MissingTotal(cols: seq<Column>): (r: nat)
    ensures r == 0 <==>
      forall j, i :: 0 <= j < |cols| && 0 <= i < |cols[j].cells| ==> cols[j].cells[i].Some?
  {
    if |cols| == 0 then 0
    else
      MissingInZeroIff(cols[0].cells);
      assert forall j :: 1 <= j < |cols| ==> cols[j] == cols[1..][j - 1];
      MissingIn(cols[0].cells) + MissingTotal(cols[1..])
  }

  /** The same total counted the other way: missing cells of rows 0..m-1. */
  function MissingByRows(ds: Dataset, m: nat): nat
    requires Valid(ds) && m <= ds.rows
  {
    if m == 0 then 0 else MissingByRows(ds, m - 1) + MissingIn(Row(ds, m - 1))
  }

  lemma {:induction false} MissingInAppend(a: seq<Cell>, b: seq<Cell>)
    ensures MissingIn(a + b) == MissingIn(a) + MissingIn(b)
  {
    if |a| == 0 {
      assert a + b == b;
    } else {
      assert (a + b)[1..] == a[1..] + b;
      MissingInAppend(a[1..], b);
    }
  }

  lemma {:induction false} NoColumnsNoMissing(ds: Dataset, m: nat)
    requires Valid(ds) && |ds.columns| == 0 && m <= ds.rows
    ensures MissingByRows(ds, m) == 0
  {
    if m > 0 {
      NoColumnsNoMissing(ds, m - 1);
    }
  }

  /** Counting rows 0..m-1 splits into the first column and the remaining columns. */
  lemma {:induction false} ByRowsSplit(ds: Dataset, m: nat)
    requires Valid(ds) && |ds.columns| > 0 && m <= ds.rows
    ensures Valid(Dataset(ds.columns[1..], ds.rows))
    ensures MissingByRows(ds, m)
      == MissingIn(ds.columns[0].cells[..m]) + MissingByRows(Dataset(ds.columns[1..], ds.rows), m)
  {
    var rest := Dataset(ds.columns[1..], ds.rows);
    if m > 0 {
      ByRowsSplit(ds, m - 1);
      var c := ds.columns[0].cells;
      assert Row(ds, m - 1) == [c[m - 1]] + Row(rest, m - 1);
      assert Row(ds, m - 1)[1..] == Row(rest, m - 1);
      assert c[..m] == c[..m - 1] + [c[m - 1]];
      MissingInAppend(c[..m - 1], [c[m - 1]]);
    }
  }

  /** Column-wise and row-wise counting of missing cells agree. */
  lemma {:induction false} MissingTotalByRows(ds: Dataset)
    requires Valid(ds)
    ensures MissingTotal(ds.columns) == MissingByRows(ds, ds.rows)
    decreases |ds.columns|
  {
    if |ds.columns| == 0 {
      NoColumnsNoMissing(ds, ds.rows);
    } else {
      var rest := Dataset(ds.columns[1..], ds.rows);
      ByRowsSplit(ds, ds.rows);
      assert ds.columns[0].cells[..ds.rows] == ds.columns[0].cells;
      MissingTotalByRows(rest);
    }
  }

  /** No more cells are missing than the dataset has cells. */
  lemma {:induction false} MissingTotalBound(ds: Dataset)
    requires Valid(ds)
    ensures MissingTotal(ds.columns) <= |ds.columns| * ds.rows
    decreases |ds.columns|
  {
    if |ds.columns| > 0 {
      MissingTotalBound(Dataset(ds.columns[1..], ds.rows));
      assert |ds.columns| * ds.rows == ds.rows + (|ds.columns| - 1) * ds.rows;
    }
  }

  lemma {:induction false} MissingInZeroIff(cells: seq<Cell>)
    ensures MissingIn(cells) == 0 <==> forall i :: 0 <= i < |cells| ==> cells[i].Some?
  {
    if |cells| > 0 {
      MissingInZeroIff(cells[1..]);
      assert forall i :: 1 <= i < |cells| ==> cells[i] == cells[1..][i - 1];
    }
  }

  function BuildCounts(ds: Dataset, generatedAt: string): (r: Summary)
    requires Valid(ds)
    ensures r.rows == ds.rows && r.cols == |ds.columns|
    ensures r.missingTotal == MissingByRows(ds, ds.rows)
    ensures r.missingTotal <= r.rows * r.cols
    ensures r.generatedAt == generatedAt
  {
    MissingTotalByRows(ds);
    MissingTotalBound(ds);
    Summary(ds.rows, |ds.columns|, MissingTotal(ds.columns), generatedAt)
  }

  /**
    The statistics table: present exactly when a numeric column exists (never
    present and empty), and it describes precisely the numeric columns.
   */
  function Describe(cols: seq<Column>): (r: Option<StatsTable>)
    ensures r.Some? <==> exists j :: 0 <= j < |cols| && cols[j].tag == Numeric
    ensures r.Some? ==> |r.value.columns| > 0
    ensures r.Some? ==> forall j :: 0 <= j < |cols| && cols[j].tag == Numeric ==> cols[j].name in r.value.columns
    ensures r.Some? ==> forall k :: 0 <= k < |r.value.columns| ==>
      exists j :: 0 <= j < |cols| && cols[j].tag == Numeric && cols[j].name == r.value.columns[k]
  {
    var nums := NumericIndices(cols);
    if |nums| > 0 then
      var names := seq(|nums|, k requires 0 <= k < |nums| => cols[nums[k]].name);
      assert forall j :: 0 <= j < |cols| && cols[j].tag == Numeric ==> cols[j].name in names by {
        forall j | 0 <= j < |cols| && cols[j].tag == Numeric
          ensures cols[j].name in names
        {
          var k :| 0 <= k < |nums| && nums[k] == j;
          assert names[k] == cols[j].name;
        }
      }
      assert cols[nums[0]].tag == Numeric;
      Some(StatsTable(names))
    else
      assert forall j :: 0 <= j < |cols| ==> cols[j].tag == Text by {
        forall j | 0 <= j < |cols|
          ensures cols[j].tag == Text
        {
          assert cols[j].tag == Numeric ==> j in nums;
        }
      }
      None
  }

  /** `build_summary(df)`. */
  function BuildSummary(ds: Dataset, generatedAt: string): (r: SummaryResult)
    requires Valid(ds)
    ensures r.summary.rows == ds.rows && r.summary.cols == |ds.columns|
    ensures r.summary.missingTotal == MissingByRows(ds, ds.rows)
    ensures r.stats.Some? <==> exists j :: 0 <= j < |ds.columns| && ds.columns[j].tag == Numeric
    ensures r.selection.Some? ==> r.stats.Some?
    ensures r.selection == Select(ds.columns)
  {
    SummaryResult(BuildCounts(ds, generatedAt), Describe(ds.columns), Select(ds.columns))
  }
}
