/**
  The heuristic of `build_summary` that picks which two columns to chart:
  the first two numeric columns; failing that, the single numeric column
  against the first column with another name; otherwise nothing.
 */
module Selector {
  import opened Wrappers
  import opened Table

  /**
    Indices of the numeric columns at or after `from`, in column order
    (`select_dtypes(include="number").columns`).
   */
  function NumericFrom(cols: seq<Column>, from: nat): (r: seq<nat>)
    requires from <= |cols|
    ensures forall k :: 0 <= k < |r| ==> from <= r[k] < |cols| && cols[r[k]].tag == Numeric
    ensures forall k, l :: 0 <= k < l < |r| ==> r[k] < r[l]
    ensures forall i :: from <= i < |cols| && cols[i].tag == Numeric ==> i in r
    decreases |cols| - from
  {
    if from == |cols| then []
    else if cols[from].tag == Numeric then [from] + NumericFrom(cols, from + 1)
    else NumericFrom(cols, from + 1)
  }

  /** `numeric_cols`: every numeric column's index, only those, in column order. */
  function NumericIndices(cols: seq<Column>): (r: seq<nat>)
    ensures forall k :: 0 <= k < |r| ==> r[k] < |cols| && cols[r[k]].tag == Numeric
    ensures forall k, l :: 0 <= k < l < |r| ==> r[k] < r[l]
    ensures forall i :: 0 <= i < |cols| && cols[i].tag == Numeric ==> i in r
  {
    NumericFrom(cols, 0)
  }

  /** `other_cols[0]`: the first column whose name differs from `name`. */
  function FirstOtherName(cols: seq<Column>, name: string): (r: Option<nat>)
    ensures r.Some? ==> r.value < |cols| && cols[r.value].name != name
    ensures r.Some? ==> forall k :: 0 <= k < r.value ==> cols[k].name == name
    ensures r.None? <==> forall k :: 0 <= k < |cols| ==> cols[k].name == name
  {
    if |cols| == 0 then None
    else if cols[0].name != name then Some(0)
    else match FirstOtherName(cols[1..], name)
      case None => None
      case Some(k) => Some(k + 1)
  }

  /** The suggested (x, y) pair of column names, or None. */
  function Select(cols: seq<Column>): (r: Option<(string, string)>)
    ensures r.Some? ==> ColumnIndex(cols, r.value.0).Some? && ColumnIndex(cols, r.value.1).Some?
  {
    var nums := NumericIndices(cols);
    if |nums| >= 2 then
      Some((cols[nums[0]].name, cols[nums[1]].name))
    else if |nums| == 1 then
      match FirstOtherName(cols, cols[nums[0]].name)
      case Some(j) => Some((cols[j].name, cols[nums[0]].name))
      case None => None
    else
      None
  }

  /**
    With numeric columns `i < j` and none other before `j`, the pair is
    exactly (column i, column j): never a later numeric column.
   */
  lemma SelectFirstTwoNumeric(cols: seq<Column>, i: nat, j: nat)
    requires i < j < |cols|
    requires cols[i].tag == Numeric && cols[j].tag == Numeric
    requires forall k :: 0 <= k < j && k != i ==> cols[k].tag == Text
    ensures Select(cols) == Some((cols[i].name, cols[j].name))
  {
  }

  /** When column `n` is the only numeric column, it is the only numeric index. */
  lemma {:induction false} OnlyNumeric(cols: seq<Column>, n: nat, from: nat)
    requires n < |cols| && cols[n].tag == Numeric
    requires forall k :: 0 <= k < |cols| && k != n ==> cols[k].tag == Text
    requires from <= |cols|
    ensures NumericFrom(cols, from) == if from <= n then [n] else []
    decreases |cols| - from
  {
    if from < |cols| {
      OnlyNumeric(cols, n, from + 1);
    }
  }

  /**
    With a single numeric column `n`, the pair is (first text column, column n).
   */
  lemma SelectSingleNumeric(cols: seq<Column>, n: nat, t: nat)
    requires DistinctNames(cols)
    requires n < |cols| && cols[n].tag == Numeric
    requires forall k :: 0 <= k < |cols| && k != n ==> cols[k].tag == Text
    requires t < |cols| && cols[t].tag == Text
    requires forall k :: 0 <= k < t ==> cols[k].tag == Numeric
    ensures Select(cols) == Some((cols[t].name, cols[n].name))
  {
    OnlyNumeric(cols, n, 0);
  }

  /**
    No pair is suggested exactly when there is no numeric column, or the one
    numeric column is the only column.
   */
  lemma SelectNoneIff(cols: seq<Column>)
    requires DistinctNames(cols)
    ensures Select(cols).None? <==>
      (forall k :: 0 <= k < |cols| ==> cols[k].tag == Text) || (|cols| == 1 && cols[0].tag == Numeric)
  {
    var nums := NumericIndices(cols);
    if |nums| == 0 {
      assert forall k :: 0 <= k < |cols| ==> cols[k].tag == Text by {
        forall k | 0 <= k < |cols|
          ensures cols[k].tag == Text
        {
        }
      }
    } else if |nums| == 1 {
      var n := nums[0];
      if |cols| == 1 {
        assert FirstOtherName(cols, cols[n].name).None?;
      } else {
        var t := if n == 0 then 1 else 0;
        assert cols[t].name != cols[n].name;
        assert FirstOtherName(cols, cols[n].name).Some?;
      }
    } else {
      assert cols[nums[0]].tag == Numeric;
      assert nums[0] < nums[1] < |cols|;
    }
  }

  /**
    A suggested pair names two different columns; y is always numeric, and
    x is numeric exactly when at least two numeric columns exist.
   */
  lemma SelectDistinct(cols: seq<Column>)
    requires DistinctNames(cols) && Select(cols).Some?
    ensures Select(cols).value.0 != Select(cols).value.1
    ensures var y := ColumnIndex(cols, Select(cols).value.1).value; cols[y].tag == Numeric
    ensures var x := ColumnIndex(cols, Select(cols).value.0).value;
      cols[x].tag == Numeric <==> |NumericIndices(cols)| >= 2
  {
  }
}
