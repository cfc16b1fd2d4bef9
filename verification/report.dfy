/**
  `preview_report` / `download_pdf` after the CSV has been read: the report
  document handed to the template, with the chart made only when a pair
  was suggested.
 */
module Report {
  import opened Wrappers
  import opened Table
  import opened Ordering
  import opened Selector
  import opened Profile
  import opened Preview
  import opened Charting

  const ReportTitle: string := "BÁO CÁO PHÂN TÍCH DỮ LIỆU (TỪ CSV)"

  /** The chart section: the image's public path and what the image shows. */
  datatype ChartRef = ChartRef(url: string, chart: Chart)

  datatype Report = Report(title: string, summary: Summary, statsTable: Option<StatsTable>,
                           preview: Dataset, chart: Option<ChartRef>, fileId: string, forPdf: bool)

  const ChartPrefix: string := "/static/chart_"
  const ChartSuffix: string := ".png"

  /** The public path of the chart image for a report identifier; the identifier can be read back from it. */
  function ChartUrl(fileId: string): (r: string)
    ensures |r| == |ChartPrefix| + |fileId| + |ChartSuffix|
    ensures r[..|ChartPrefix|] == ChartPrefix && r[|r| - |ChartSuffix|..] == ChartSuffix
    ensures r[|ChartPrefix|..|r| - |ChartSuffix|] == fileId
  {
    ChartPrefix + fileId + ChartSuffix
  }

  /** Different report identifiers never share a chart image. */
  lemma ChartUrlInjective(a: string, b: string)
    requires ChartUrl(a) == ChartUrl(b)
    ensures a == b
  {
    var u := ChartUrl(a);
    assert a == u[|ChartPrefix|..|u| - |ChartSuffix|];
  }

  /** Python truthiness of a column name; the chart needs both names truthy. */
  predicate Truthy(name: string)
  {
    name != ""
  }

  /** The chart section, made only for a suggested pair of truthy names. */
  function ChartFor(ds: Dataset, selection: Option<(string, string)>, fileId: string): (r: Option<ChartRef>)
    requires Valid(ds)
    requires selection.Some? ==>
      ColumnIndex(ds.columns, selection.value.0).Some? && ColumnIndex(ds.columns, selection.value.1).Some?
    ensures r.Some? <==> selection.Some? && Truthy(selection.value.0) && Truthy(selection.value.1)
    ensures r.Some? ==> r.value.url == ChartUrl(fileId)
    ensures r.Some? ==> r.value.chart.xLabel == selection.value.0 && r.value.chart.yLabel == selection.value.1
    ensures r.Some? ==> r.value.chart.title == selection.value.1 + " theo " + selection.value.0
    ensures r.Some? ==> r.value.chart == MakeChart(ds, selection.value.0, selection.value.1)
  {
    match selection
    case Some((x, y)) =>
      if Truthy(x) && Truthy(y) then Some(ChartRef(ChartUrl(fileId), MakeChart(ds, x, y))) else None
    case None => None
  }

  /** The report for dataset `ds` under identifier `fileId`. */
  function Compose(ds: Dataset, fileId: string, generatedAt: string, forPdf: bool): (r: Report)
    requires Valid(ds)
    ensures r.title == ReportTitle && r.fileId == fileId && r.forPdf == forPdf
    ensures r.summary.rows == ds.rows && r.summary.cols == |ds.columns|
    ensures r.summary.missingTotal == MissingByRows(ds, ds.rows)
    ensures r.statsTable.Some? <==> exists j :: 0 <= j < |ds.columns| && ds.columns[j].tag == Numeric
    ensures r.preview.rows == Min(PreviewLimit, ds.rows)
    ensures Valid(r.preview) && Names(r.preview.columns) == Names(ds.columns)
    ensures forall j, i :: 0 <= j < |ds.columns| && 0 <= i < r.preview.rows && j < |r.preview.columns| ==>
      r.preview.columns[j].cells[i] == ds.columns[j].cells[i]
    ensures r.chart.Some? ==> Select(ds.columns).Some? && r.chart.value.chart.xLabel == Select(ds.columns).value.0
    ensures r.chart.Some? ==> Select(ds.columns).Some? && r.chart.value.chart.yLabel == Select(ds.columns).value.1
    ensures r.chart.Some? ==> r.chart.value.chart.title == r.chart.value.chart.yLabel + " theo " + r.chart.value.chart.xLabel
    ensures r.chart.Some? ==> r.chart.value.url == ChartUrl(fileId)
    ensures r.chart.Some? ==>
      Select(ds.columns).Some? && r.chart.value.chart == MakeChart(ds, Select(ds.columns).value.0, Select(ds.columns).value.1)
  {
    var s := BuildSummary(ds, generatedAt);
    Report(ReportTitle, s.summary, s.stats, PreviewOf(ds), ChartFor(ds, s.selection, fileId), fileId, forPdf)
  }

  /** For a dataset as the CSV loader produces it, a chart is made exactly when a pair was suggested. */
  lemma ChartIffSelection(ds: Dataset, fileId: string, generatedAt: string, forPdf: bool)
    requires Loaded(ds)
    ensures Compose(ds, fileId, generatedAt, forPdf).chart.Some? <==> Select(ds.columns).Some?
  {
  }

  /** Without numeric columns the report has neither a statistics table nor a chart. */
  lemma NoNumericNoStatsNoChart(ds: Dataset, fileId: string, generatedAt: string, forPdf: bool)
    requires Valid(ds)
    requires forall j :: 0 <= j < |ds.columns| ==> ds.columns[j].tag == Text
    ensures Compose(ds, fileId, generatedAt, forPdf).statsTable.None?
    ensures Compose(ds, fileId, generatedAt, forPdf).chart.None?
  {
  }

  /**
    The report route and the download route read the CSV, build the summary,
    the preview and the chart by the same steps and differ only in the PDF
    flag, so both are one `Compose` with `forPdf` as a parameter; this states
    that the flag is the only difference.
   */
  lemma PreviewAndDownloadAgree(ds: Dataset, fileId: string, generatedAt: string)
    requires Valid(ds)
    ensures Compose(ds, fileId, generatedAt, true) == Compose(ds, fileId, generatedAt, false).(forPdf := true)
  {
  }
}

/** Worked examples of the report for small datasets. */
module ReportExamples {
  import opened Wrappers
  import opened Table
  import opened Selector
  import opened Preview
  import opened Charting
  import opened Report

  function NumberCells(n: nat): seq<Cell>
  {
    seq(n, i requires 0 <= i < n => Some(Num(i as real)))
  }

  function TextCells(n: nat): seq<Cell>
  {
    seq(n, i requires 0 <= i < n => Some(Str("r")))
  }

  /** Columns id (text), score and age (numeric), `n` rows. */
  function ScoreAgeData(n: nat): Dataset
  {
    Dataset([Column("id", Text, TextCells(n)), Column("score", Numeric, NumberCells(n)),
             Column("age", Numeric, NumberCells(n))], n)
  }

  /** Columns name and city (text), `n` rows. */
  function AllTextData(n: nat): Dataset
  {
    Dataset([Column("name", Text, TextCells(n)), Column("city", Text, TextCells(n))], n)
  }

  /** A numeric column amount and a text column label, `n` rows. */
  function LabelAmountData(n: nat): Dataset
  {
    Dataset([Column("amount", Numeric, NumberCells(n)), Column("label", Text, TextCells(n))], n)
  }

  /** Whatever the row count, statistics are shown and the chart is age against score. */
  lemma ExampleScoreAge(n: nat)
    ensures Valid(ScoreAgeData(n))
    ensures Select(ScoreAgeData(n).columns) == Some(("score", "age"))
    ensures Compose(ScoreAgeData(n), "f", "t", false).statsTable.Some?
    ensures Compose(ScoreAgeData(n), "f", "t", false).chart.Some?
    ensures Compose(ScoreAgeData(n), "f", "t", false).chart.value.chart.title == "age theo score"
  {
    SelectFirstTwoNumeric(ScoreAgeData(n).columns, 1, 2);
    assert ScoreAgeData(n).columns[1].tag == Numeric;
    assert "age" + " theo " + "score" == "age theo score";
  }

  /** No statistics, no chart, and with at most 30 rows every row previewed. */
  lemma ExampleAllText(n: nat)
    requires n <= PreviewLimit
    ensures Valid(AllTextData(n))
    ensures Select(AllTextData(n).columns).None?
    ensures Compose(AllTextData(n), "f", "t", false).statsTable.None?
    ensures Compose(AllTextData(n), "f", "t", false).chart.None?
    ensures Compose(AllTextData(n), "f", "t", false).preview == AllTextData(n)
  {
    NoNumericNoStatsNoChart(AllTextData(n), "f", "t", false);
    SelectNoneIff(AllTextData(n).columns);
    SmallDatasetShownWhole(AllTextData(n));
  }

  /** The chart is amount against label; with 30 rows or more only 30 are previewed. */
  lemma ExampleLabelAmount(n: nat)
    requires n >= PreviewLimit
    ensures Valid(LabelAmountData(n))
    ensures Select(LabelAmountData(n).columns) == Some(("label", "amount"))
    ensures Compose(LabelAmountData(n), "f", "t", false).preview.rows == 30
    ensures Compose(LabelAmountData(n), "f", "t", false).chart.Some?
    ensures Compose(LabelAmountData(n), "f", "t", false).chart.value.chart.title == "amount theo label"
  {
    SelectSingleNumeric(LabelAmountData(n).columns, 0, 1);
    assert "amount" + " theo " + "label" == "amount theo label";
  }
}
