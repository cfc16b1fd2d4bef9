# CSV report builder: the decision logic

This project models the part of the CSV-to-PDF report application
(`app.py`) that decides what the report contains, with Flask, pandas and
matplotlib removed:

- **Summary counts** (`build_summary`): row count, column count, the total
  of missing cells, and whether a descriptive-statistics table of the
  numeric columns exists.
- **Chart pair heuristic** (`build_summary`): the first two numeric columns;
  failing that, the only numeric column as y against the first column with
  another name as x; otherwise no pair.
- **Preview**: `df.head(30)`, the first `min(30, rows)` rows with every column.
- **Chart descriptor** (`make_chart` and its gating in `preview_report` /
  `download_pdf`): made only for a suggested pair, axis labels are the column
  names, title `"{y} theo {x}"`, rows sorted by x when `sort_values` can
  compare the x values, otherwise left in file order.

A dataset (`Table.Dataset`) is an ordered sequence of columns, each with a
name, a `Numeric`/`Text` tag fixed at load time and one optional cell per row
(`None` is a missing value). A cell value is a number or a text. A text
column may hold numbers next to text (pandas then keeps Python objects of
both kinds). Sorting by such a column raises, and `make_chart` falls back to
file order (`Ordering.Orderable`). Drawing the plot afterwards fails for such
a column as well (see "Left out"); the model describes the chart only up to
the point where it would be drawn. `Table.Loaded` is what the
CSV reader guarantees: rectangular, distinct and non-empty header names,
numeric columns holding numbers only.

Modules, in pipeline order: `Wrappers` (Option), `Table` (data model),
`Ordering` (how `sort_values` compares cells), `Selector` (the pair
heuristic), `Profile` (`build_summary`), `Preview` (`head(30)`), `Charting`
(`make_chart`), `Report` (the document handed to the template) and
`ReportExamples` (small worked datasets).

Three behaviours of the code that are easy to misread:

- The chart title is `"{y} theo {x}"` ("theo" is Vietnamese for "by").
- With one numeric column, x is the first column whose *name* differs from
  the numeric column's name. Under distinct names (which the CSV reader
  guarantees) this is the first non-numeric column (`Selector.SelectSingleNumeric`).
- The chart is gated on `if x_col and y_col`, i.e. on both names being
  non-empty strings, not only on a pair existing. For a loaded dataset the
  two coincide (`Report.ChartIffSelection`).

## Model

| member | source | states |
|---|---|---|
| `Table.ColumnIndex` | app.py:32 | label lookup `df[name]`: under distinct names (`Table.Loaded`) the one column with that name; none exactly when no column has it |
| `Table.ColumnIndexUnique` | app.py:32 | under distinct names, looking up column j's name finds column j |
| `Ordering.StrLeTotal` | app.py:28 | any two texts are comparable in lexicographic order |
| `Ordering.StrLeTransitive` | app.py:28 | lexicographic order on texts is transitive |
| `Ordering.CellLeTotal` | app.py:28 | the sort order on cells (missing last) is total |
| `Ordering.CellLeTransitive` | app.py:28 | the sort order on cells (missing last) is transitive |
| `Ordering.NumbersAreOrderable` | app.py:26-28 | a column of numbers and missing cells can always be sorted |
| `Selector.NumericIndices` | app.py:52 | `numeric_cols` holds every numeric column's index, only those, strictly ascending (original column order) |
| `Selector.NumericFrom` | app.py:52 | the numeric-column list holds every numeric column index, only those, strictly ascending (original column order) |
| `Selector.OnlyNumeric` | app.py:52 | when one column is the only numeric one, the numeric-column list is exactly that column |
| `Selector.FirstOtherName` | app.py:64-66 | `other_cols[0]` is the first column whose name differs, and there is none exactly when every name equals the given one |
| `Selector.Select` | app.py:58-66 | a suggested pair names columns that exist in the dataset |
| `Selector.SelectFirstTwoNumeric` | app.py:52-61 | with two or more numeric columns the pair is (first numeric, second numeric) in column order, never any other pair |
| `Selector.SelectSingleNumeric` | app.py:62-66 | with exactly one numeric column, y is that column and x is the first non-numeric column |
| `Selector.SelectNoneIff` | app.py:59-66 | no pair exactly when there is no numeric column, or the single numeric column is the only column |
| `Selector.SelectDistinct` | app.py:60-66 | the two selected names differ; y's column is numeric; x's column is numeric exactly when two or more numeric columns exist |
| `Profile.MissingIn` | app.py:47 | a column's missing count never exceeds its length |
| `Profile.MissingInCountsMissing` | app.py:47 | a column's `isna().sum()` is the number of missing cells in it (the multiplicity of the missing cell in the column's multiset) |
| `Profile.MissingTotal` | app.py:47 | `isna().sum().sum()`, the per-column counts added up, is zero exactly when no cell is missing |
| `Profile.MissingTotalByRows` | app.py:47 | the sum over columns of missing counts equals the sum over rows of missing counts |
| `Profile.MissingTotalBound` | app.py:47 | the missing total is at most columns times rows |
| `Profile.BuildCounts` | app.py:44-49 | `rows` is the row count, `cols` the column count, `missing_total` the number of missing cells counted row by row, bounded by rows times cols |
| `Profile.Describe` | app.py:51-56 | the statistics table is present exactly when a numeric column exists, is never present and empty, and describes exactly the numeric columns |
| `Profile.BuildSummary` | app.py:42-68 | counts as above, statistics present iff a numeric column exists, a pair is only suggested when statistics are present, and the suggested pair is exactly the heuristic's (`Selector.Select`) |
| `Preview.Head` | app.py:130 | `head(n)` keeps every column's name and tag, has `min(n, rows)` rows, and cell (row i, column j) of the result is cell (i, j) of the dataset |
| `Preview.PreviewOf` | app.py:130-131 | the preview has `min(30, rows)` rows, at most 30, keeps all columns with their names and tags, and each of its cells is the dataset's cell at the same row and column |
| `Preview.PreviewRowsArePrefix` | app.py:130-131 | the preview's rows are exactly the leading rows of the dataset, in original order |
| `Preview.SmallDatasetShownWhole` | app.py:130 | a dataset of at most 30 rows is previewed unchanged |
| `Preview.PreviewIdempotent` | app.py:130 | previewing a preview changes nothing |
| `Charting.Insert` | app.py:28 | inserting a row into a sorted row order keeps it sorted and adds exactly that row |
| `Charting.SortIndices` | app.py:28 | sorting rearranges the rows (same multiset of row indices) into ascending key order, missing keys last |
| `Charting.TrySort` | app.py:27-30 | the sort succeeds exactly when the x values can be compared, and then yields a permutation of the rows in ascending x order |
| `Charting.PlotOrder` | app.py:27-30 | the plotted row order is a permutation of the rows: sorted by x when possible, otherwise the original order |
| `Charting.Pairs` | app.py:32 | one (x, y) pair per row: pair i is row i's x cell and y cell |
| `Charting.MakeChart` | app.py:23-35 | labels are x and y, title is y + " theo " + x, points are the (x, y) cells of the rows in plot order, which is sorted or the original order |
| `Charting.PickRespectsMultiset` | app.py:32 | visiting a sequence in two orders that are rearrangements of each other yields rearrangements of each other |
| `Charting.PlottedPairsArePermutation` | app.py:27-32 | the plotted points are exactly the dataset's (x, y) pairs, rearranged |
| `Charting.PlottedXAscending` | app.py:28-32 | when x can be sorted, the plotted x values ascend with missing values last |
| `Charting.NumericXIsSorted` | app.py:26-28 | a numeric x column is always plotted in sorted order |
| `Report.ChartUrl` | app.py:136-139 | the chart path is `/static/chart_` + identifier + `.png`, and the identifier can be read back from it |
| `Report.ChartUrlInjective` | app.py:136-139 | different report identifiers never share a chart image path |
| `Report.ChartFor` | app.py:134-139 | a chart is made exactly when a pair exists with non-empty names; its image path is `/static/chart_<id>.png`, its labels and title come from the pair, and the chart is `make_chart` of that pair (`Charting.MakeChart`: rows sorted by x when sortable, else in file order) |
| `Report.Compose` | app.py:124-149 | the report carries the fixed title and the identifier, the summary counts, statistics iff a numeric column exists, a preview of the leading `min(30, rows)` rows with all columns, and a chart only for the suggested pair, labelled x and y, titled y + " theo " + x, stored at `/static/chart_<id>.png`, and equal to `make_chart` of that pair |
| `Report.ChartIffSelection` | app.py:134-135 | for a loaded dataset, the report has a chart exactly when a pair was suggested |
| `Report.NoNumericNoStatsNoChart` | app.py:52-66 | without numeric columns the report has neither statistics nor a chart |
| `Report.PreviewAndDownloadAgree` | app.py:158-179 | both routes are modelled by one `Compose` because app.py:158-179 repeats app.py:124-149 apart from `for_pdf=True`; the lemma states that this flag is the only difference |
| `ReportExamples.ExampleScoreAge` | app.py:52-61 | columns id, score, age: pair (score, age), statistics present, chart titled "age theo score", for every row count |
| `ReportExamples.ExampleAllText` | app.py:53-66 | two text columns, at most 30 rows: no pair, no statistics, no chart, every row previewed |
| `ReportExamples.ExampleLabelAmount` | app.py:62-66 | numeric amount and text label, 30 rows or more: pair (label, amount), chart titled "amount theo label", exactly 30 rows previewed |

## Left out

- Routes, upload validation, uuid identifiers, file existence checks and the 404 responses (app.py:71-122, 152-156): web and filesystem plumbing; the report identifier is a parameter.
- CSV parsing and dtype inference by `pd.read_csv` (app.py:125, 159): the model starts from an already typed dataset; `Table.Loaded` states what the reader guarantees. Boolean columns, which pandas does not count as numeric, are modelled as text.
- The values of `describe().round(3)` (app.py:55): floating-point statistics computed by pandas; only the table's presence and the columns it describes are modelled.
- The `datetime.now()` timestamp (app.py:48): the clock reading is a parameter and passed through unchanged.
- Report.Compose: assumes drawing always succeeds. In the source, `plt.plot` (app.py:32) runs outside the try of app.py:27-30. For an x column that mixes numbers and text, or a text x column with a missing cell, matplotlib's axis conversion raises there, so `preview_report`/`download_pdf` (app.py:138, 167) abort with no report. The model instead returns a report with a chart for these datasets.
- Table.ColumnIndex: with repeated labels the model takes the first column, while pandas returns all of them and `sort_values` raises; the CSV reader never produces repeated labels.
- Drawing, grid, layout and saving the PNG (app.py:25, 36-39), HTML rendering with `to_html`/`render_template`, and PDF export through pdfkit with its page options (app.py:181-208): external collaborators.
- Order among rows with equal x: `Charting.SortIndices` keeps them stable, while pandas' default quicksort promises no order among ties; the contracts state only ascending order and permutation, which both agree on.
- Determinism of the heuristic and re-running the pipeline for the same identifier: every operation here is a pure function, so equal inputs give equal outputs without a separate statement.
