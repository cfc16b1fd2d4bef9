/**
  `make_chart`: sort the rows by the x column if that can be done, otherwise
  keep the original row order, and describe the line plot of y against x
  (axis labels, title, plotted points). Drawing and saving the image are
  not modelled.
 */
module Charting {
  import opened Wrappers
  import opened Table
  import opened Ordering

  /** [0, 1, ..., n-1]: the original row order. */
  function Range(n: nat): (r: seq<nat>)
    ensures |r| == n && forall k :: 0 <= k < n ==> r[k] == k
  {
    seq(n, k requires 0 <= k < n => k)
  }

  predicate InRange(order: seq<nat>, n: nat)
  {
    forall k :: 0 <= k < |order| ==> order[k] < n
  }

  /** `order` lists every row index below `n` exactly once. */
  predicate Permutation(order: seq<nat>, n: nat)
  {
    multiset(order) == multiset(Range(n))
  }

  /** Visiting rows in `order` meets their keys in ascending order, missing keys last. */
  predicate SortedBy(keys: seq<Cell>, order: seq<nat>)
  {
    forall p, q :: 0 <= p < q < |order| && order[p] < |keys| && order[q] < |keys|
      ==> CellLe(keys[order[p]], keys[order[q]])
  }

  /** Row `h`'s key is at most the key of every row in `s`. */
  predicate Below(keys: seq<Cell>, h: nat, s: seq<nat>)
  {
    forall q :: 0 <= q < |s| && h < |keys| && s[q] < |keys| ==> CellLe(keys[h], keys[s[q]])
  }

  lemma ConsSorted(keys: seq<Cell>, h: nat, s: seq<nat>)
    requires SortedBy(keys, s) && Below(keys, h, s)
    ensures SortedBy(keys, [h] + s)
  {
  }

  /** A smaller key than the head of a sorted order is below all of it. */
  lemma BelowSorted(keys: seq<Cell>, h: nat, s: seq<nat>)
    requires InRange(s, |keys|) && SortedBy(keys, s) && |s| > 0
    requires h < |keys| && CellLe(keys[h], keys[s[0]])
    ensures Below(keys, h, s)
  {
    forall q | 0 <= q < |s|
      ensures CellLe(keys[h], keys[s[q]])
    {
      if q > 0 {
        CellLeTransitive(keys[h], keys[s[0]], keys[s[q]]);
      }
    }
  }

  /** Being below every element depends only on the elements, not their order. */
  lemma BelowMultiset(keys: seq<Cell>, h: nat, a: seq<nat>, b: seq<nat>)
    requires Below(keys, h, b) && multiset(a) <= multiset(b)
    ensures Below(keys, h, a)
  {
    forall q | 0 <= q < |a| && h < |keys| && a[q] < |keys|
      ensures CellLe(keys[h], keys[a[q]])
    {
      assert a[q] in multiset(b);
      var t :| 0 <= t < |b| && b[t] == a[q];
    }
  }

  /** Insert row `i` into an order already sorted by `keys`. */
  function Insert(keys: seq<Cell>, i: nat, s: seq<nat>): (r: seq<nat>)
    requires i < |keys| && InRange(s, |keys|) && SortedBy(keys, s)
    ensures |r| == |s| + 1
    ensures multiset(r) == multiset(s) + multiset{i}
    ensures InRange(r, |keys|)
    ensures SortedBy(keys, r)
  {
    if s == [] then [i]
    else if CellLe(keys[i], keys[s[0]]) then
      BelowSorted(keys, i, s);
      ConsSorted(keys, i, s);
      [i] + s
    else
      var tail := s[1..];
      assert s == [s[0]] + tail;
      var rest := Insert(keys, i, tail);
      CellLeTotal(keys[i], keys[s[0]]);
      assert Below(keys, s[0], tail + [i]) by {
        ConsSorted(keys, s[0], tail);
      }
      assert multiset(rest) == multiset(tail + [i]);
      BelowMultiset(keys, s[0], rest, tail + [i]);
      ConsSorted(keys, s[0], rest);
      [s[0]] + rest
  }

  /** Insertion sort of the row indices in `s` by their keys. */
  function SortIndices(keys: seq<Cell>, s: seq<nat>): (r: seq<nat>)
    requires InRange(s, |keys|)
    ensures |r| == |s|
    ensures multiset(r) == multiset(s)
    ensures InRange(r, |keys|)
    ensures SortedBy(keys, r)
  {
    if s == [] then []
    else
      assert s == [s[0]] + s[1..];
      Insert(keys, s[0], SortIndices(keys, s[1..]))
  }

  /** The fallible sort: an ordering of the rows, or the sentinel for "cannot compare". */
  datatype SortOutcome = Ordered(order: seq<nat>) | Unorderable

  /** `df.sort_values(by=x)`, which raises exactly when the keys mix numbers and text. */
  function TrySort(keys: seq<Cell>): (r: SortOutcome)
    ensures r.Ordered? <==> Orderable(keys)
    ensures r.Ordered? ==> |r.order| == |keys| && Permutation(r.order, |keys|)
    ensures r.Ordered? ==> InRange(r.order, |keys|) && SortedBy(keys, r.order)
  {
    if Orderable(keys) then Ordered(SortIndices(keys, Range(|keys|))) else Unorderable
  }

  /** The row order plotted: sorted when possible, else the original order. */
  function PlotOrder(keys: seq<Cell>): (r: seq<nat>)
    ensures |r| == |keys| && Permutation(r, |keys|) && InRange(r, |keys|)
    ensures Orderable(keys) ==> SortedBy(keys, r)
    ensures !Orderable(keys) ==> r == Range(|keys|)
  {
    match TrySort(keys)
    case Ordered(order) => order
    case Unorderable => Range(|keys|)
  }

  /** What the rendered figure shows. */
  datatype Chart = Chart(xLabel: string, yLabel: string, title: string,
                         rowOrder: seq<nat>, points: seq<(Cell, Cell)>)

  /** The (x, y) cell pairs of the dataset: pair i is row i's x cell and y cell. */
  function Pairs(ds: Dataset, x: string, y: string): (r: seq<(Cell, Cell)>)
    requires Valid(ds) && ColumnIndex(ds.columns, x).Some? && ColumnIndex(ds.columns, y).Some?
    ensures |r| == ds.rows
    ensures forall i :: 0 <= i < ds.rows ==> r[i] == (CellsOf(ds, x)[i], CellsOf(ds, y)[i])
  {
    var xs := CellsOf(ds, x);
    var ys := CellsOf(ds, y);
    seq(ds.rows, i requires 0 <= i < ds.rows => (xs[i], ys[i]))
  }

  /** The elements of `s` visited in `order`. */
  function Pick<T>(s: seq<T>, order: seq<nat>): (r: seq<T>)
    requires InRange(order, |s|)
    ensures |r| == |order| && forall k :: 0 <= k < |order| ==> r[k] == s[order[k]]
  {
    seq(|order|, k requires 0 <= k < |order| => s[order[k]])
  }

  /** `make_chart(df, x, y)`. */
  function MakeChart(ds: Dataset, x: string, y: string): (c: Chart)
    requires Valid(ds) && ColumnIndex(ds.columns, x).Some? && ColumnIndex(ds.columns, y).Some?
    ensures c.xLabel == x && c.yLabel == y
    ensures c.title == y + " theo " + x
    ensures |c.rowOrder| == ds.rows && Permutation(c.rowOrder, ds.rows) && InRange(c.rowOrder, ds.rows)
    ensures Orderable(CellsOf(ds, x)) ==> SortedBy(CellsOf(ds, x), c.rowOrder)
    ensures !Orderable(CellsOf(ds, x)) ==> c.rowOrder == Range(ds.rows)
    ensures |c.points| == ds.rows
    ensures forall k :: 0 <= k < ds.rows ==>
      c.points[k] == (CellsOf(ds, x)[c.rowOrder[k]], CellsOf(ds, y)[c.rowOrder[k]])
  {
    var order := PlotOrder(CellsOf(ds, x));
    Chart(x, y, y + " theo " + x, order, Pick(Pairs(ds, x, y), order))
  }

  lemma MultisetCancel<T>(x: T, m: multiset<T>, n: multiset<T>)
    requires m + multiset{x} == n + multiset{x}
    ensures m == n
  {
    assert forall v :: m[v] == (m + multiset{x})[v] - multiset{x}[v];
    assert forall v :: n[v] == (n + multiset{x})[v] - multiset{x}[v];
  }

  lemma PickAppend<T>(s: seq<T>, a: seq<nat>, b: seq<nat>)
    requires InRange(a, |s|) && InRange(b, |s|)
    ensures InRange(a + b, |s|) && Pick(s, a + b) == Pick(s, a) + Pick(s, b)
  {
  }

  /** Taking index `t` out of `b` takes one `b[t]` out of both multisets. */
  lemma RemoveAt<T>(s: seq<T>, b: seq<nat>, t: nat)
    requires InRange(b, |s|) && t < |b|
    ensures InRange(b[..t] + b[t + 1..], |s|)
    ensures multiset(b) == multiset(b[..t] + b[t + 1..]) + multiset{b[t]}
    ensures multiset(Pick(s, b)) == multiset(Pick(s, b[..t] + b[t + 1..])) + multiset{s[b[t]]}
  {
    var l, m, r := b[..t], [b[t]], b[t + 1..];
    assert b == l + m + r;
    PickAppend(s, l + m, r);
    PickAppend(s, l, m);
    PickAppend(s, l, r);
    assert Pick(s, m) == [s[b[t]]];
  }

  /** One induction step: match `a[0]` with `b[t]` and drop both. */
  lemma DropMatched<T>(s: seq<T>, a: seq<nat>, b: seq<nat>, t: nat)
    requires InRange(a, |s|) && InRange(b, |s|) && multiset(a) == multiset(b)
    requires 0 < |a| && t < |b| && b[t] == a[0]
    ensures InRange(b[..t] + b[t + 1..], |s|)
    ensures multiset(a[1..]) == multiset(b[..t] + b[t + 1..])
    ensures multiset(Pick(s, a)) == multiset(Pick(s, a[1..])) + multiset{s[a[0]]}
    ensures multiset(Pick(s, b)) == multiset(Pick(s, b[..t] + b[t + 1..])) + multiset{s[a[0]]}
  {
    RemoveAt(s, b, t);
    RemoveAt(s, a, 0);
    assert a[..0] + a[1..] == a[1..];
    MultisetCancel(a[0], multiset(a[1..]), multiset(b[..t] + b[t + 1..]));
  }

  /** Reordering by a rearrangement of the indices rearranges the picked elements. */
  lemma {:induction false} PickRespectsMultiset<T>(s: seq<T>, a: seq<nat>, b: seq<nat>)
    requires InRange(a, |s|) && InRange(b, |s|) && multiset(a) == multiset(b)
    ensures multiset(Pick(s, a)) == multiset(Pick(s, b))
    decreases |a|
  {
    if |a| > 0 {
      assert a[0] in multiset(b);
      var t :| 0 <= t < |b| && b[t] == a[0];
      DropMatched(s, a, b, t);
      PickRespectsMultiset(s, a[1..], b[..t] + b[t + 1..]);
    } else {
      assert |b| == |multiset(b)| == 0;
    }
  }

  /** The plotted points are exactly the dataset's (x, y) pairs, rearranged. */
  lemma PlottedPairsArePermutation(ds: Dataset, x: string, y: string)
    requires Valid(ds) && ColumnIndex(ds.columns, x).Some? && ColumnIndex(ds.columns, y).Some?
    ensures multiset(MakeChart(ds, x, y).points) == multiset(Pairs(ds, x, y))
  {
    var c := MakeChart(ds, x, y);
    var pairs := Pairs(ds, x, y);
    PickRespectsMultiset(pairs, c.rowOrder, Range(ds.rows));
    assert Pick(pairs, Range(ds.rows)) == pairs;
    assert c.points == Pick(pairs, c.rowOrder);
  }

  /**
    When the x column can be sorted, the plotted x values ascend, with
    missing x values at the end.
   */
  lemma PlottedXAscending(ds: Dataset, x: string, y: string)
    requires Valid(ds) && ColumnIndex(ds.columns, x).Some? && ColumnIndex(ds.columns, y).Some?
    requires Orderable(CellsOf(ds, x))
    ensures var pts := MakeChart(ds, x, y).points;
      forall p, q :: 0 <= p < q < |pts| ==> CellLe(pts[p].0, pts[q].0)
  {
  }

  /** A numeric x column is always sorted, never left in file order by a failed sort. */
  lemma NumericXIsSorted(ds: Dataset, x: string, y: string)
    requires Valid(ds) && WellTyped(ds.columns)
    requires ColumnIndex(ds.columns, x).Some? && ColumnIndex(ds.columns, y).Some?
    requires ds.columns[ColumnIndex(ds.columns, x).value].tag == Numeric
    ensures SortedBy(CellsOf(ds, x), MakeChart(ds, x, y).rowOrder)
  {
    NumbersAreOrderable(CellsOf(ds, x));
  }
}
