/**
 * Dragging a column border (useColumnResize.js): the drag context set on
 * mouse-down and cleared on mouse-up, and the width update on every mouse
 * move, clamped to bounds read from CSS custom properties.
 */
module ColumnResize {
  import opened Nodes
  import opened Constants

  /** The fallbacks used when `--col-min-width` / `--col-max-width` are missing or parse to 0 or NaN. */
  const FallbackMinWidth: int := 80
  const FallbackMaxWidth: int := 1200

  /** What `onResizeStart` records: the column, the mouse's x and the column's width at that moment. */
  datatype DragContext = DragContext(key: string, startX: int, startW: int)

  /**
   * `parseInt(value) || fallback`. `parsed` is what `parseInt` returned:
   * `None` for NaN (a missing or unparsable value).
   */
  function CssBound(parsed: Option<int>, fallback: int): (bound: int)
    ensures bound == fallback || (parsed.Some? && bound == parsed.value)
    ensures parsed.Some? && parsed.value != 0 ==> bound == parsed.value
    ensures parsed.None? || parsed.value == 0 ==> bound == fallback
    ensures bound == 0 ==> fallback == 0
  {
    if parsed.None? || parsed.value == 0 then fallback else parsed.value
  }

  /** `Math.max(minW, Math.min(maxW, startW + delta))`. */
  function ClampWidth(startW: int, delta: int, minW: int, maxW: int): (w: int)
    ensures minW <= maxW ==> minW <= w <= maxW
    ensures minW <= startW + delta <= maxW ==> w == startW + delta
    ensures startW + delta < minW ==> w == minW
    ensures minW <= maxW < startW + delta ==> w == maxW
    ensures maxW < minW ==> w == minW
  {
    var capped := if startW + delta < maxW then startW + delta else maxW;
    if capped < minW then minW else capped
  }

  /** The width a mouse move at `clientX` gives the dragged column. */
  function NextWidth(ctx: DragContext, clientX: int, minCss: Option<int>, maxCss: Option<int>): (w: int)
    ensures var minW, maxW := CssBound(minCss, FallbackMinWidth), CssBound(maxCss, FallbackMaxWidth);
      && (minW <= maxW ==> minW <= w <= maxW)
      && (minW <= ctx.startW + (clientX - ctx.startX) <= maxW ==> w == ctx.startW + (clientX - ctx.startX))
      && (ctx.startW + (clientX - ctx.startX) < minW ==> w == minW)
      && (minW <= maxW < ctx.startW + (clientX - ctx.startX) ==> w == maxW)
      && (maxW < minW ==> w == minW)
  {
    ClampWidth(ctx.startW, clientX - ctx.startX, CssBound(minCss, FallbackMinWidth), CssBound(maxCss, FallbackMaxWidth))
  }

  /** Without CSS overrides a drag never makes a column narrower than 80 px or wider than 1200 px. */
  lemma DefaultBoundsHold(ctx: DragContext, clientX: int)
    ensures FallbackMinWidth <= NextWidth(ctx, clientX, None, None) <= FallbackMaxWidth
  {
  }

  /** `colWidths[key]`: the width of the first column with that key, the only one when the keys are distinct. */
  function WidthOf(columns: seq<Column>, key: string): (w: Option<int>)
    ensures w.Some? <==> exists i :: 0 <= i < |columns| && columns[i].key == key
  {
    if columns == [] then None
    else if columns[0].key == key then Some(columns[0].width)
    else WidthOf(columns[1..], key)
  }

  /** Every column of `r` is the written one or a column of `columns`: nothing else is created or changed. */
  predicate WrittenFrom(r: seq<Column>, columns: seq<Column>, written: Column) {
    forall i :: 0 <= i < |r| ==> r[i] == written || r[i] in columns
  }

  /**
   * `{ ...w, [key]: width }`: an existing property keeps its place and takes
   * the new width; a new property is added last.
   */
  function SetWidth(columns: seq<Column>, key: string, width: int): (r: seq<Column>)
    ensures |columns| <= |r| <= |columns| + 1
    ensures WrittenFrom(r, columns, Column(key, width))
  {
    if columns == [] then [Column(key, width)]
    else if columns[0].key == key then [Column(key, width)] + columns[1..]
    else [columns[0]] + SetWidth(columns[1..], key, width)
  }

  /** A JavaScript object holds each property once: no key names two columns. */
  predicate DistinctKeys(columns: seq<Column>) {
    forall i, j :: 0 <= i < j < |columns| ==> columns[i].key != columns[j].key
  }

  /** The record update never makes a key name two columns. */
  lemma {:induction false} SetWidthKeepsDistinct(columns: seq<Column>, key: string, width: int)
    requires DistinctKeys(columns)
    ensures DistinctKeys(SetWidth(columns, key, width))
  {
    if columns != [] && columns[0].key != key {
      var tail := SetWidth(columns[1..], key, width);
      SetWidthKeepsDistinct(columns[1..], key, width);
      forall j | 0 <= j < |tail|
        ensures tail[j].key != columns[0].key
      {
        if tail[j] != Column(key, width) {
          var m :| 0 <= m < |columns[1..]| && columns[1..][m] == tail[j];
          assert columns[m + 1] == tail[j];
        }
      }
      assert SetWidth(columns, key, width) == [columns[0]] + tail;
    }
  }

  /** The record update gives the dragged column its new width and leaves every other column as it was. */
  lemma {:induction false} SetWidthOnlyChangesKey(columns: seq<Column>, key: string, width: int, other: string)
    ensures WidthOf(SetWidth(columns, key, width), key) == Some(width)
    ensures other != key ==> WidthOf(SetWidth(columns, key, width), other) == WidthOf(columns, other)
    ensures |SetWidth(columns, key, width)| == |columns| + (if WidthOf(columns, key).Some? then 0 else 1)
  {
    if columns != [] && columns[0].key != key {
      SetWidthOnlyChangesKey(columns[1..], key, width, other);
    }
  }

  /** Setting an existing column's width to w changes the grid total by w minus its old width. */
  lemma {:induction false} SetWidthTotal(columns: seq<Column>, key: string, width: int)
    requires WidthOf(columns, key).Some?
    ensures ColumnsTotal(SetWidth(columns, key, width)) == ColumnsTotal(columns) - WidthOf(columns, key).value + width
  {
    var k := SetWidthAt(columns, key, width);
    var d := width - columns[k].width;
    assert Column(key, width) == Column(columns[k].key, columns[k].width + d);
    WidenColumn(columns, k, d);
  }

  lemma ConsUpdate(c: Column, tail: seq<Column>, j: nat, x: Column)
    requires j < |tail|
    ensures [c] + tail[j := x] == ([c] + tail)[j + 1 := x]
  {
  }

  lemma {:induction false} SetWidthAt(columns: seq<Column>, key: string, width: int) returns (k: nat)
    requires WidthOf(columns, key).Some?
    ensures k < |columns| && columns[k].key == key && columns[k].width == WidthOf(columns, key).value
    ensures SetWidth(columns, key, width) == columns[k := Column(key, width)]
  {
    if columns[0].key == key {
      k := 0;
    } else {
      var j := SetWidthAt(columns[1..], key, width);
      k := j + 1;
      ConsUpdate(columns[0], columns[1..], j, Column(key, width));
      assert [columns[0]] + columns[1..] == columns;
    }
  }

  /** The state of the hook: the width record and the drag in progress, if any. */
  class ColumnResizer {
    var colWidths: seq<Column>
    var resizing: Option<DragContext>

    /** The width record is an object, so each key is one of its properties at most once. */
    predicate Valid()
      reads this
    {
      DistinctKeys(colWidths)
    }

    constructor ()
      ensures Valid()
      ensures colWidths == DefaultColWidths && resizing == None
    {
      colWidths := DefaultColWidths;
      resizing := None;
    }

    /** `onResizeStart(key)` on mouse-down at `clientX`: remember the column, the mouse's x and the width. */
    method OnResizeStart(key: string, clientX: int)
      requires Valid() && WidthOf(colWidths, key).Some?
      modifies this
      ensures Valid()
      ensures resizing == Some(DragContext(key, clientX, WidthOf(old(colWidths), key).value))
      ensures colWidths == old(colWidths)
    {
      resizing := Some(DragContext(key, clientX, WidthOf(colWidths, key).value));
    }

    /**
     * `onResizing` on a mouse move at `clientX`, with the parsed CSS bounds:
     * nothing without a drag, else the dragged column takes the clamped width.
     */
    method OnResizing(clientX: int, minCss: Option<int>, maxCss: Option<int>)
      requires Valid()
      modifies this
      ensures Valid()
      ensures resizing == old(resizing)
      ensures old(resizing).None? ==> colWidths == old(colWidths)
      ensures old(resizing).Some? ==>
        colWidths == SetWidth(old(colWidths), resizing.value.key, NextWidth(resizing.value, clientX, minCss, maxCss))
    {
      if resizing.None? {
        return;
      }
      var ctx := resizing.value;
      var delta := clientX - ctx.startX;
      var minW := CssBound(minCss, FallbackMinWidth);
      var maxW := CssBound(maxCss, FallbackMaxWidth);
      var nextW := ClampWidth(ctx.startW, delta, minW, maxW);
      SetWidthKeepsDistinct(colWidths, ctx.key, nextW);
      colWidths := SetWidth(colWidths, ctx.key, nextW);
    }

    /** `onResizeEnd` on mouse-up: the drag is over, so later moves change nothing. */
    method OnResizeEnd()
      requires Valid()
      modifies this
      ensures Valid()
      ensures resizing == None && colWidths == old(colWidths)
    {
      resizing := None;
    }
  }
}
