/** The shipped font tables fit their texture, glyph beside glyph. */
module ShippedFont {
  import opened FontBitmap
  import opened GlyphAtlas

  // ----- Offsets in a row

  /** The columns that the first k glyphs of a row take, a pixel after each. */
  function Columns(row: seq<uint16>, k: nat): nat
    requires k <= |row|
  {
    if k == 0 then 0 else Columns(row, k - 1) + row[k - 1] + 1
  }

  lemma {:induction false} ColumnsGrow(row: seq<uint16>, k: nat, n: nat)
    requires k <= n <= |row|
    ensures Columns(row, k) <= Columns(row, n)
    decreases n
  {
    if k < n {
      ColumnsGrow(row, k, n - 1);
    }
  }

  /** The glyphs from `start` on are this row. */
  predicate RowAt(width: seq<uint16>, y: seq<uint16>, start: nat, row: seq<uint16>) {
    && |width| == |y| && start + |row| <= |y|
    && (forall i :: start <= i < start + |row| ==> width[i] == row[i - start] && y[i] == y[start])
    && (start > 0 && row != [] ==> y[start - 1] != y[start])
  }

  lemma {:induction false} OffsetInRow(width: seq<uint16>, y: seq<uint16>, start: nat, row: seq<uint16>, k: nat)
    requires RowAt(width, y, start, row) && k < |row|
    ensures XOffset(width, y, start + k) == Columns(row, k)
    decreases k
  {
    if k > 0 {
      OffsetInRow(width, y, start, row, k - 1);
    }
  }

  /** The row is there, and takes no more than 257 columns, the last one blank. */
  predicate FittingRow(width: seq<uint16>, y: seq<uint16>, start: nat, row: seq<uint16>) {
    RowAt(width, y, start, row) && Columns(row, |row|) <= WIDTH + 1
  }

  lemma RowFits(width: seq<uint16>, y: seq<uint16>, start: nat, row: seq<uint16>)
    requires FittingRow(width, y, start, row)
    ensures forall i :: start <= i < start + |row| ==> XOffset(width, y, i) + width[i] <= WIDTH
  {
    forall i | start <= i < start + |row|
      ensures XOffset(width, y, i) + width[i] <= WIDTH
    {
      OffsetInRow(width, y, start, row, i - start);
      ColumnsGrow(row, i - start + 1, |row|);
    }
  }

  lemma FourColumns(row: seq<uint16>, k: nat)
    requires k + 4 <= |row|
    ensures Columns(row, k + 4) == Columns(row, k) + row[k] + row[k + 1] + row[k + 2] + row[k + 3] + 4
  {
    assert Columns(row, k + 3) == Columns(row, k + 2) + row[k + 2] + 1;
    assert Columns(row, k + 1) == Columns(row, k) + row[k] + 1;
  }

  // ----- The six rows

  lemma FirstTotals()
    ensures Columns(ROW0, |ROW0|) <= WIDTH + 1 && Columns(ROW1, |ROW1|) <= WIDTH + 1
    ensures Columns(ROW2, |ROW2|) <= WIDTH + 1
  {
    FourColumns(ROW0, 0);
    FourColumns(ROW0, 4);
    FourColumns(ROW0, 8);
    FourColumns(ROW0, 12);
    FourColumns(ROW1, 0);
    FourColumns(ROW1, 4);
    FourColumns(ROW1, 8);
    FourColumns(ROW2, 0);
    FourColumns(ROW2, 4);
    FourColumns(ROW2, 8);
  }

  lemma LastTotals()
    ensures Columns(ROW3, |ROW3|) <= WIDTH + 1 && Columns(ROW4, |ROW4|) <= WIDTH + 1
    ensures Columns(ROW5, |ROW5|) <= WIDTH + 1
  {
    FourColumns(ROW3, 0);
    FourColumns(ROW3, 4);
    FourColumns(ROW3, 8);
    FourColumns(ROW4, 0);
    FourColumns(ROW4, 4);
    FourColumns(ROW4, 8);
    FourColumns(ROW4, 12);
    FourColumns(ROW5, 0);
    FourColumns(ROW5, 4);
    FourColumns(ROW5, 8);
  }

  /** The row of a glyph. */
  function RowOf(i: nat): (row: nat)
    ensures row < 6
  {
    if i < 19 then 0 else if i < 34 then 1 else if i < 48 then 2 else if i < 63 then 3 else if i < 80 then 4 else 5
  }

  lemma YOffsetIs(i: nat)
    requires i < NUM_GLYPHS
    ensures i < |Y_OFFSET| && Y_OFFSET[i] == MAX_GLYPH_HEIGHT * RowOf(i)
  {
  }

  /** One of the rows of a table, by the parts before and after it. */
  lemma RowInside(before: seq<uint16>, row: seq<uint16>, after: seq<uint16>, y: seq<uint16>)
    requires |before + row + after| == |y|
    requires forall i :: |before| <= i < |before| + |row| ==> y[i] == y[|before|]
    requires before != [] && row != [] ==> y[|before| - 1] != y[|before|]
    ensures RowAt(before + row + after, y, |before|, row)
  {
  }

  lemma YOffsetsAre()
    ensures |Y_OFFSET| == NUM_GLYPHS && forall i: nat :: i < NUM_GLYPHS ==> Y_OFFSET[i] == MAX_GLYPH_HEIGHT * RowOf(i)
  {
    forall i: nat | i < NUM_GLYPHS
      ensures Y_OFFSET[i] == MAX_GLYPH_HEIGHT * RowOf(i)
    {
      YOffsetIs(i);
    }
  }

  lemma FirstAndRest(a: seq<uint16>, b: seq<uint16>, c: seq<uint16>, d: seq<uint16>, e: seq<uint16>, f: seq<uint16>)
    ensures a + b + c + d + e + f == [] + a + (b + c + d + e + f)
  {
  }

  lemma FirstRow(y: seq<uint16>)
    requires |y| == NUM_GLYPHS && forall i: nat :: i < NUM_GLYPHS ==> y[i] == MAX_GLYPH_HEIGHT * RowOf(i)
    ensures RowAt(GLYPH_WIDTH, y, 0, ROW0)
  {
    RowInside([], ROW0, ROW1 + ROW2 + ROW3 + ROW4 + ROW5, y);
    FirstAndRest(ROW0, ROW1, ROW2, ROW3, ROW4, ROW5);
  }

  lemma NextRows(y: seq<uint16>)
    requires |y| == NUM_GLYPHS && forall i: nat :: i < NUM_GLYPHS ==> y[i] == MAX_GLYPH_HEIGHT * RowOf(i)
    ensures RowAt(GLYPH_WIDTH, y, 19, ROW1) && RowAt(GLYPH_WIDTH, y, 34, ROW2)
  {
    RowInside(ROW0, ROW1, ROW2 + ROW3 + ROW4 + ROW5, y);
    RowInside(ROW0 + ROW1, ROW2, ROW3 + ROW4 + ROW5, y);
    assert GLYPH_WIDTH == ROW0 + ROW1 + (ROW2 + ROW3 + ROW4 + ROW5);
    assert GLYPH_WIDTH == ROW0 + ROW1 + ROW2 + (ROW3 + ROW4 + ROW5);
  }

  lemma LastRows(y: seq<uint16>)
    requires |y| == NUM_GLYPHS && forall i: nat :: i < NUM_GLYPHS ==> y[i] == MAX_GLYPH_HEIGHT * RowOf(i)
    ensures RowAt(GLYPH_WIDTH, y, 48, ROW3) && RowAt(GLYPH_WIDTH, y, 63, ROW4) && RowAt(GLYPH_WIDTH, y, 80, ROW5)
  {
    RowInside(ROW0 + ROW1 + ROW2, ROW3, ROW4 + ROW5, y);
    RowInside(ROW0 + ROW1 + ROW2 + ROW3, ROW4, ROW5, y);
    RowInside(ROW0 + ROW1 + ROW2 + ROW3 + ROW4, ROW5, [], y);
    assert GLYPH_WIDTH == ROW0 + ROW1 + ROW2 + ROW3 + (ROW4 + ROW5);
    assert GLYPH_WIDTH == ROW0 + ROW1 + ROW2 + ROW3 + ROW4 + ROW5 + [];
  }

  lemma FirstGlyphsFit()
    ensures |GLYPH_WIDTH| == |Y_OFFSET| == NUM_GLYPHS
    ensures forall i: nat :: i < 48 ==> XOffset(GLYPH_WIDTH, Y_OFFSET, i) + GLYPH_WIDTH[i] <= WIDTH
  {
    YOffsetsAre();
    FirstRow(Y_OFFSET);
    NextRows(Y_OFFSET);
    FirstTotals();
    RowFits(GLYPH_WIDTH, Y_OFFSET, 0, ROW0);
    RowFits(GLYPH_WIDTH, Y_OFFSET, 19, ROW1);
    RowFits(GLYPH_WIDTH, Y_OFFSET, 34, ROW2);
  }

  lemma LastGlyphsFit()
    ensures |GLYPH_WIDTH| == |Y_OFFSET| == NUM_GLYPHS
    ensures forall i: nat :: 48 <= i < NUM_GLYPHS ==> XOffset(GLYPH_WIDTH, Y_OFFSET, i) + GLYPH_WIDTH[i] <= WIDTH
  {
    YOffsetsAre();
    LastRows(Y_OFFSET);
    LastTotals();
    RowFits(GLYPH_WIDTH, Y_OFFSET, 48, ROW3);
    RowFits(GLYPH_WIDTH, Y_OFFSET, 63, ROW4);
    RowFits(GLYPH_WIDTH, Y_OFFSET, 80, ROW5);
  }

  lemma RowsAreApart(y: seq<uint16>)
    requires |y| == NUM_GLYPHS && forall i: nat :: i < NUM_GLYPHS ==> y[i] == MAX_GLYPH_HEIGHT * RowOf(i)
    ensures RowsContiguous(y)
    ensures forall k, l :: 0 <= k < |y| && 0 <= l < |y| && y[k] < y[l] ==> y[k] + MAX_GLYPH_HEIGHT <= y[l]
    ensures forall k :: 0 <= k < |y| ==> y[k] + MAX_GLYPH_HEIGHT <= HEIGHT
  {
  }

  predicate Inside(box: Box) { 0 <= box.left < box.right <= WIDTH && 0 <= box.top < box.bottom <= HEIGHT }

  lemma OffsetIsSmall(offset: nat, x: uint16)
    requires x == offset % 0x1_0000 && offset <= WIDTH
    ensures x == offset
  {
  }

  lemma BoxInside(width: seq<uint16>, y: seq<uint16>, xOffset: seq<uint16>, i: nat)
    requires |width| == |y| == |xOffset| == NUM_GLYPHS && i < NUM_GLYPHS
    requires xOffset[i] == XOffset(width, y, i) % 0x1_0000
    requires XOffset(width, y, i) + width[i] <= WIDTH && width[i] > 0 && y[i] + MAX_GLYPH_HEIGHT <= HEIGHT
    ensures Inside(GlyphBox(width, y, xOffset, MAX_GLYPH_HEIGHT, i))
  {
    OffsetIsSmall(XOffset(width, y, i), xOffset[i]);
  }

  lemma BoxesApartEitherWay(width: seq<uint16>, y: seq<uint16>, xOffset: seq<uint16>, i: nat, j: nat)
    requires |width| == |y| == |xOffset| == NUM_GLYPHS && i < NUM_GLYPHS && j < NUM_GLYPHS && i != j
    requires forall k :: 0 <= k < NUM_GLYPHS ==> xOffset[k] == XOffset(width, y, k) % 0x1_0000
    requires forall k: nat :: k < NUM_GLYPHS ==> XOffset(width, y, k) + width[k] <= WIDTH
    requires RowsContiguous(y)
    requires forall k, l :: 0 <= k < |y| && 0 <= l < |y| && y[k] < y[l] ==> y[k] + MAX_GLYPH_HEIGHT <= y[l]
    ensures GlyphBox(width, y, xOffset, MAX_GLYPH_HEIGHT, i).Apart(GlyphBox(width, y, xOffset, MAX_GLYPH_HEIGHT, j), 1)
  {
    assert forall k :: 0 <= k < |y| ==> XOffset(width, y, k) < 0x1_0000;
    if i < j {
      BoxesApart(width, y, xOffset, MAX_GLYPH_HEIGHT, i, j);
    } else {
      BoxesApart(width, y, xOffset, MAX_GLYPH_HEIGHT, j, i);
    }
  }

  /** With the offsets that initXOffset leaves for the shipped tables, every glyph's box lies inside the
      texture, and no two of them touch. */
  lemma ShippedAtlas(mXOffset: seq<uint16>, i: nat, j: nat)
    requires |mXOffset| == NUM_GLYPHS && i < NUM_GLYPHS && j < NUM_GLYPHS && i != j
    requires forall k :: 0 <= k < NUM_GLYPHS ==> mXOffset[k] == XOffset(GLYPH_WIDTH, Y_OFFSET, k) % 0x1_0000
    ensures Inside(GlyphBox(GLYPH_WIDTH, Y_OFFSET, mXOffset, MAX_GLYPH_HEIGHT, i))
    ensures GlyphBox(GLYPH_WIDTH, Y_OFFSET, mXOffset, MAX_GLYPH_HEIGHT, i)
            .Apart(GlyphBox(GLYPH_WIDTH, Y_OFFSET, mXOffset, MAX_GLYPH_HEIGHT, j), 1)
  {
    FirstGlyphsFit();
    LastGlyphsFit();
    YOffsetsAre();
    RowsAreApart(Y_OFFSET);
    BoxInside(GLYPH_WIDTH, Y_OFFSET, mXOffset, i);
    BoxesApartEitherWay(GLYPH_WIDTH, Y_OFFSET, mXOffset, i, j);
  }
}
