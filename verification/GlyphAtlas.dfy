/** The packed glyph table of the texture, and its power-of-two height. */
module GlyphAtlas {
  import opened FontBitmap

  /** The x offset of glyph i in its row: one pixel more than the glyphs before it are wide. */
  function XOffset(width: seq<uint16>, y: seq<uint16>, i: nat): nat
    requires i < |width| == |y|
  {
    if i == 0 || y[i] != y[i - 1] then 0 else XOffset(width, y, i - 1) + width[i - 1] + 1
  }

  /** The table that initXOffset leaves: the running offset is a 16-bit integer. */
  method InitXOffset(width: seq<uint16>, y: seq<uint16>, mXOffset: array<uint16>)
    requires |width| == |y| == mXOffset.Length
    modifies mXOffset
    ensures forall i :: 0 <= i < |y| ==> mXOffset[i] == XOffset(width, y, i) % 0x1_0000
  {
    var offset: uint16 := 0;
    var prevYOffset: uint16 := 0xFFFF;
    for i := 0 to |y|
      invariant i == 0 ==> offset == 0
      invariant i > 0 ==> prevYOffset == y[i - 1] && offset == (XOffset(width, y, i - 1) + width[i - 1] + 1) % 0x1_0000
      invariant forall j :: 0 <= j < i ==> mXOffset[j] == XOffset(width, y, j) % 0x1_0000
    {
      if prevYOffset != y[i] {
        prevYOffset := y[i];
        offset := 0;
      }
      mXOffset[i] := offset;
      var w: int := width[i];
      offset := (offset + w + 1) % 0x1_0000;
      Wraps(XOffset(width, y, i), w + 1);
    }
  }

  lemma Wraps(a: nat, b: nat)
    ensures (a % 0x1_0000 + b) % 0x1_0000 == (a + b) % 0x1_0000
  {
  }

  /** Glyphs with the same y offset are neighbours. */
  predicate RowsContiguous(y: seq<uint16>) {
    forall i, j, k :: 0 <= i < j < k < |y| && y[i] == y[k] ==> y[j] == y[i]
  }

  lemma {:induction false} RowGrows(width: seq<uint16>, y: seq<uint16>, i: nat, j: nat)
    requires |width| == |y| && i < j < |y| && RowsContiguous(y) && y[i] == y[j]
    ensures XOffset(width, y, i) + width[i] + 1 <= XOffset(width, y, j)
    decreases j
  {
    assert j - 1 > i ==> y[j - 1] == y[i];
    if i < j - 1 {
      RowGrows(width, y, i, j - 1);
    }
  }

  /** A glyph's box in the texture, right and bottom exclusive. */
  datatype Box = Box(left: int, top: int, right: int, bottom: int) {
    /** At least `gap` columns between the two, or in different rows. */
    predicate Apart(that: Box, gap: int) {
      || right + gap <= that.left || that.right + gap <= left
      || bottom <= that.top || that.bottom <= top
    }
  }

  function GlyphBox(width: seq<uint16>, y: seq<uint16>, xOffset: seq<uint16>, height: nat, i: nat): Box
    requires i < |width| == |y| == |xOffset|
  {
    var left: int, top: int, w: int := xOffset[i], y[i], width[i];
    Box(left, top, left + w, top + height)
  }

  /** For every font whose rows are contiguous, no closer than a glyph is high and short enough for a
      16-bit offset: the boxes that initXOffset describes are pairwise disjoint, a pixel apart in a row. */
  lemma {:induction false} BoxesApart(width: seq<uint16>, y: seq<uint16>, xOffset: seq<uint16>, height: nat,
                                      i: nat, j: nat)
    requires |width| == |y| == |xOffset| && i < j < |y|
    requires forall k :: 0 <= k < |y| ==> xOffset[k] == XOffset(width, y, k) % 0x1_0000
    requires RowsContiguous(y)
    requires forall k, l :: 0 <= k < |y| && 0 <= l < |y| && y[k] < y[l] ==> y[k] + height <= y[l]
    requires forall k :: 0 <= k < |y| ==> XOffset(width, y, k) < 0x1_0000
    ensures GlyphBox(width, y, xOffset, height, i).Apart(GlyphBox(width, y, xOffset, height, j), 1)
  {
    if y[i] == y[j] {
      RowGrows(width, y, i, j);
      assert XOffset(width, y, i) < 0x1_0000 && XOffset(width, y, j) < 0x1_0000;
    }
  }

  // ----- Powers of two

  predicate IsPowerOfTwo(val: bv32) { val & (val - 1) == 0 }

  /** Drop one, smear the bits, add one. */
  function PowerOfTwoCeil(val: bv32): bv32 {
    var a := val - 1;
    var b := a | (a >> 1);
    var c := b | (b >> 2);
    var d := c | (c >> 4);
    var e := d | (d >> 8);
    var f := e | (e >> 16);
    f + 1
  }

  /** The 32 powers of two that a 32-bit integer can hold. */
  predicate SingleBit(val: bv32) {
    || val == 0x1 || val == 0x2 || val == 0x4 || val == 0x8
    || val == 0x10 || val == 0x20 || val == 0x40 || val == 0x80
    || val == 0x100 || val == 0x200 || val == 0x400 || val == 0x800
    || val == 0x1000 || val == 0x2000 || val == 0x4000 || val == 0x8000
    || val == 0x10000 || val == 0x20000 || val == 0x40000 || val == 0x80000
    || val == 0x100000 || val == 0x200000 || val == 0x400000 || val == 0x800000
    || val == 0x1000000 || val == 0x2000000 || val == 0x4000000 || val == 0x8000000
    || val == 0x10000000 || val == 0x20000000 || val == 0x40000000 || val == 0x80000000
  }

  /** The test accepts exactly zero and the powers of two. */
  lemma PowersExactly(val: bv32)
    ensures IsPowerOfTwo(val) <==> val == 0 || SingleBit(val)
  {
  }

  lemma SmearIsLeast(val: bv32, other: bv32)
    requires 1 <= val <= 0x8000_0000
    ensures var p := PowerOfTwoCeil(val);
            && IsPowerOfTwo(p) && p >= val
            && (IsPowerOfTwo(other) && other >= val ==> p <= other)
            && (p == val <==> IsPowerOfTwo(val))
  {
  }

  /** For every value from 1 to 2^31, the least power of two not below it, and the value itself exactly
      if it is one. */
  lemma LeastPowerOfTwo(val: bv32, other: bv32)
    requires 1 <= val <= 0x8000_0000
    ensures var p := PowerOfTwoCeil(val);
            && SingleBit(p) && p >= val
            && (SingleBit(other) && other >= val ==> p <= other)
            && (p == val <==> SingleBit(val))
  {
    SmearIsLeast(val, other);
    PowersExactly(PowerOfTwoCeil(val));
    PowersExactly(other);
    PowersExactly(val);
  }
}
