/** The shipped font tables: 95 glyphs from the space on, packed into a 256 by 204 texture. */
module FontBitmap {
  const NUM_GLYPHS := 95
  const FIRST_GLYPH_CHAR := 32
  const MAX_GLYPH_HEIGHT := 34
  const OUTLINE_WIDTH := 1
  const WIDTH := 256
  const HEIGHT := 204

  type uint16 = x: int | 0 <= x < 0x1_0000

  /** Every glyph is wider than what neighbouring glyphs overlap. */
  type GlyphWidth = w: int | 6 <= w <= 23 witness 6

  /** The glyphs row by row, as the texture holds them. */
  const ROW0: seq<GlyphWidth> := [8, 9, 10, 16, 16, 20, 18, 6, 10, 10, 13, 15, 8, 11, 9, 11, 16, 16, 16]
  const ROW1: seq<GlyphWidth> := [16, 16, 16, 16, 16, 16, 16, 9, 9, 14, 16, 14, 14, 23, 17]
  const ROW2: seq<GlyphWidth> := [17, 17, 18, 16, 16, 18, 19, 9, 16, 18, 15, 23, 19, 19]
  const ROW3: seq<GlyphWidth> := [18, 19, 18, 17, 17, 18, 17, 23, 17, 17, 16, 9, 12, 9, 13]
  const ROW4: seq<GlyphWidth> := [13, 10, 15, 16, 14, 16, 15, 11, 16, 16, 8, 8, 15, 8, 23, 16, 16]
  const ROW5: seq<GlyphWidth> := [16, 16, 11, 14, 10, 16, 14, 20, 14, 14, 14, 10, 8, 10, 18]

  const GLYPH_WIDTH: seq<GlyphWidth> := ROW0 + ROW1 + ROW2 + ROW3 + ROW4 + ROW5

  /** Glyph widths for any font with these characters; the shipped one is GLYPH_WIDTH. */
  type Font = w: seq<GlyphWidth> | |w| == NUM_GLYPHS witness GLYPH_WIDTH

  function Repeat(y: uint16, n: nat): (r: seq<uint16>)
    ensures |r| == n && forall i :: 0 <= i < n ==> r[i] == y
  {
    seq(n, _ => y)
  }

  const Y_OFFSET: seq<uint16> :=
    Repeat(0, 19) + Repeat(34, 15) + Repeat(68, 14) + Repeat(102, 15) + Repeat(136, 17) + Repeat(170, 15)

  lemma TableSizes()
    ensures |GLYPH_WIDTH| == |Y_OFFSET| == NUM_GLYPHS
  {
  }
}
