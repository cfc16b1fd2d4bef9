/** `df.head(30)`: the bounded preview table of the report. */
module Preview {
  import opened Table

  /** The preview never shows more rows than this. */
  const PreviewLimit: nat := 30

  function Min(a: nat, b: nat): nat
  {
    if a <= b then a else b
  }

  function Head(ds: Dataset, n: nat): (p: Dataset)
    requires Valid(ds)
    ensures p.rows == Min(n, ds.rows)
    ensures |p.columns| == |ds.columns|
    ensures forall j :: 0 <= j < |ds.columns| ==>
      p.columns[j].name == ds.columns[j].name && p.columns[j].tag == ds.columns[j].tag
    ensures Valid(p)
    ensures forall j, i :: 0 <= j < |ds.columns| && 0 <= i < p.rows ==> p.columns[j].cells[i] == ds.columns[j].cells[i]
  {
    var m := Min(n, ds.rows);
    var cols := seq(|ds.columns|, j requires 0 <= j < |ds.columns| =>
      var c := ds.columns[j]; Column(c.name, c.tag, c.cells[..m]));
    Dataset(cols, m)
  }

  /**
    The preview: exactly `min(30, rows)` rows, the leading rows of the
    dataset in their original order, with every column kept.
   */
  function PreviewOf(ds: Dataset): (p: Dataset)
    requires Valid(ds)
    ensures p.rows == Min(PreviewLimit, ds.rows) && p.rows <= PreviewLimit
    ensures Names(p.columns) == Names(ds.columns)
    ensures |p.columns| == |ds.columns| && forall j :: 0 <= j < |ds.columns| ==> p.columns[j].tag == ds.columns[j].tag
    ensures Valid(p)
    ensures forall j, i :: 0 <= j < |ds.columns| && 0 <= i < p.rows ==> p.columns[j].cells[i] == ds.columns[j].cells[i]
  {
    Head(ds, PreviewLimit)
  }

  /** Row by row: the preview's rows are the dataset's leading rows, in order. */
  lemma PreviewRowsArePrefix(ds: Dataset)
    requires Valid(ds)
    ensures Rows(PreviewOf(ds)) == Rows(ds)[..PreviewOf(ds).rows]
  {
    var p := PreviewOf(ds);
    forall i | 0 <= i < p.rows
      ensures Row(p, i) == Row(ds, i)
    {
    }
  }

  /** A dataset within the limit is shown in full. */
  lemma SmallDatasetShownWhole(ds: Dataset)
    requires Valid(ds) && ds.rows <= PreviewLimit
    ensures PreviewOf(ds) == ds
  {
    var p := PreviewOf(ds);
    forall j | 0 <= j < |ds.columns|
      ensures p.columns[j] == ds.columns[j]
    {
      assert ds.columns[j].cells[..ds.rows] == ds.columns[j].cells;
    }
  }

  /** Taking the preview of a preview changes nothing. */
  lemma PreviewIdempotent(ds: Dataset)
    requires Valid(ds)
    ensures PreviewOf(PreviewOf(ds)) == PreviewOf(ds)
  {
    SmallDatasetShownWhole(PreviewOf(ds));
  }
}
