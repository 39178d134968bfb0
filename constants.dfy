/**
 * The UI constants of constants/index.js and the total width of the column
 * grid. A column-width record is an object; its entries are listed in
 * property order (the order `Object.values` and `Object.keys` visit them).
 * An object holds each key once; the resize hook keeps that as an
 * invariant of its record (ColumnResize.DistinctKeys).
 */
module Constants {

  /** One property of the column-width record: the column's key and its width in pixels. */
  datatype Column = Column(key: string, width: int)

  const DefaultColWidths: seq<Column> := [
    Column("filename", 240),
    Column("path", 600),
    Column("modified", 180),
    Column("created", 180),
    Column("size", 120)
  ]

  const ColGap: int := 12
  const ColumnsExtra: int := 20
  const RowHeight: int := 24
  const CacheSize: int := 1000
  const SearchDebounceMs: int := 300
  const OverscanRowCount: int := 5

  /** Every width is a size, not a negative number. */
  predicate NonNegativeWidths(columns: seq<Column>) {
    forall i :: 0 <= i < |columns| ==> columns[i].width >= 0
  }

  /** `Object.values(colWidths).reduce((sum, width) => sum + width, 0)`, folded left to right. */
  function SumWidths(columns: seq<Column>): (sum: int)
    ensures columns == [] ==> sum == 0
    ensures NonNegativeWidths(columns) ==> forall i :: 0 <= i < |columns| ==> 0 <= columns[i].width <= sum
  {
    if columns == [] then 0
    else
      var init := columns[..|columns| - 1];
      assert forall i :: 0 <= i < |init| ==> init[i] == columns[i];
      SumWidths(init) + columns[|columns| - 1].width
  }

  /** `calculateColumnsTotal`: the widths, a gap between neighbouring columns, and the fixed extra. */
  function ColumnsTotal(columns: seq<Column>): (total: int)
    ensures columns == [] ==> total == ColumnsExtra - ColGap
    ensures NonNegativeWidths(columns) ==>
      forall i :: 0 <= i < |columns| ==> total >= columns[i].width + ColumnsExtra + (|columns| - 1) * ColGap
  {
    SumWidths(columns) + (|columns| - 1) * ColGap + ColumnsExtra
  }

  /** The default grid is 1320 px of columns, four 12 px gaps and 20 px extra. */
  lemma DefaultColumnsTotal()
    ensures SumWidths(DefaultColWidths) == 1320
    ensures ColumnsTotal(DefaultColWidths) == 1388
  {
    assert DefaultColWidths[..4] == DefaultColWidths[..5][..4];
    assert DefaultColWidths[..4][..3] == DefaultColWidths[..3];
    assert DefaultColWidths[..3][..2] == DefaultColWidths[..2];
    assert DefaultColWidths[..2][..1] == DefaultColWidths[..1];
    assert DefaultColWidths[..1][..0] == [];
    assert SumWidths(DefaultColWidths[..1]) == 240;
    assert SumWidths(DefaultColWidths[..2]) == 840;
    assert SumWidths(DefaultColWidths[..3]) == 1020;
    assert SumWidths(DefaultColWidths[..4]) == 1200;
    assert DefaultColWidths[..5] == DefaultColWidths;
  }

  /** Replacing one column's width changes the sum of widths by exactly the difference. */
  lemma {:induction false} SumWidthsUpdate(columns: seq<Column>, k: nat, width: int)
    requires k < |columns|
    ensures SumWidths(columns[k := Column(columns[k].key, width)]) == SumWidths(columns) - columns[k].width + width
  {
    var updated := columns[k := Column(columns[k].key, width)];
    var n := |columns| - 1;
    assert updated[..n] == if k < n then columns[..n][k := Column(columns[k].key, width)] else columns[..n];
    if k < n {
      SumWidthsUpdate(columns[..n], k, width);
    }
  }

  /** Widening one column by d widens the grid by exactly d. */
  lemma WidenColumn(columns: seq<Column>, k: nat, d: int)
    requires k < |columns|
    ensures ColumnsTotal(columns[k := Column(columns[k].key, columns[k].width + d)]) == ColumnsTotal(columns) + d
  {
    SumWidthsUpdate(columns, k, columns[k].width + d);
  }

  /** A further column of width w widens the grid by w plus one gap. */
  lemma AddColumn(columns: seq<Column>, c: Column)
    ensures ColumnsTotal(columns + [c]) == ColumnsTotal(columns) + c.width + ColGap
  {
    assert (columns + [c])[..|columns|] == columns;
  }
}
