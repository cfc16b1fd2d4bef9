/**
  The order the chart's `sort_values(by=x)` uses: numbers by value, text
  lexicographically by code point, missing cells after every present one.
  Numbers and text cannot be compared with each other; `Orderable` says when
  a column avoids that, i.e. when the sort succeeds.
 */
module Ordering {
  import opened Wrappers
  import opened Table

  /** Lexicographic order on strings, as Python compares `str`. */
  predicate StrLe(a: string, b: string)
    decreases |a|
  {
    |a| == 0 || (|b| > 0 && (a[0] < b[0] || (a[0] == b[0] && StrLe(a[1..], b[1..]))))
  }

  /** Two values can be compared without a type error. */
  predicate SameKind(a: Value, b: Value)
  {
    a.Num? == b.Num?
  }

  /**
    Order on values. Only same-kind comparisons matter to the sort; putting
    numbers before text makes the relation a total preorder on all values.
   */
  predicate ValueLe(a: Value, b: Value)
  {
    match (a, b)
    case (Num(x), Num(y)) => x <= y
    case (Str(s), Str(t)) => StrLe(s, t)
    case (Num(_), Str(_)) => true
    case (Str(_), Num(_)) => false
  }

  /** Order on cells: missing cells go last (`na_position="last"`). */
  predicate CellLe(a: Cell, b: Cell)
  {
    match a
    case None => b.None?
    case Some(x) => b.None? || ValueLe(x, b.value)
  }

  /** No two present cells are of different kinds, so sorting cannot fail. */
  predicate Orderable(keys: seq<Cell>)
  {
    forall i, j :: 0 <= i < |keys| && 0 <= j < |keys| && keys[i].Some? && keys[j].Some?
      ==> SameKind(keys[i].value, keys[j].value)
  }

  lemma {:induction false} StrLeTotal(a: string, b: string)
    ensures StrLe(a, b) || StrLe(b, a)
    decreases |a|
  {
    if |a| > 0 && |b| > 0 && a[0] == b[0] {
      StrLeTotal(a[1..], b[1..]);
    }
  }

  lemma {:induction false} StrLeTransitive(a: string, b: string, c: string)
    requires StrLe(a, b) && StrLe(b, c)
    ensures StrLe(a, c)
    decreases |a|
  {
    if |a| > 0 && a[0] == b[0] && b[0] == c[0] {
      StrLeTransitive(a[1..], b[1..], c[1..]);
    }
  }

  lemma CellLeTotal(a: Cell, b: Cell)
    ensures CellLe(a, b) || CellLe(b, a)
  {
    if a.Some? && b.Some? && a.value.Str? && b.value.Str? {
      StrLeTotal(a.value.s, b.value.s);
    }
  }

  lemma CellLeTransitive(a: Cell, b: Cell, c: Cell)
    requires CellLe(a, b) && CellLe(b, c)
    ensures CellLe(a, c)
  {
    if a.Some? && b.Some? && c.Some? && a.value.Str? && b.value.Str? && c.value.Str? {
      StrLeTransitive(a.value.s, b.value.s, c.value.s);
    }
  }

  /** A column of numbers (and missing cells) always sorts. */
  lemma NumbersAreOrderable(keys: seq<Cell>)
    requires forall i :: 0 <= i < |keys| && keys[i].Some? ==> keys[i].value.Num?
    ensures Orderable(keys)
  {
  }
}
