/** Text measuring and wrapping. Widths are exact reals; characters are bytes, without a NUL. */
module TextRenderer {
  import opened Bytes
  import opened Wrappers
  import opened FontBitmap

  type Text = seq<byte>

  predicate Space(ch: byte) { ch == 32 || ch == 9 || ch == 10 || ch == 13 }

  /** A font and the factor it is drawn with. */
  datatype Metrics = Metrics(font: Font, scale: real)

  /** Subtracting the first glyph's code is unsigned, so a smaller code becomes huge. */
  function GlyphIndex(ch: byte): (chi: nat)
    ensures chi < NUM_GLYPHS
    ensures 32 <= ch < 127 ==> chi == ch - 32
    ensures !(32 <= ch < 127) ==> chi == 63 - 32
  {
    var chi: int := (ch - FIRST_GLYPH_CHAR) % 0x1_0000_0000;
    if chi >= NUM_GLYPHS then 63 - FIRST_GLYPH_CHAR else chi
  }

  /** How far the pen moves: one less than the padded glyph, and outlines overlap. */
  function Advance(m: Metrics, ch: byte): (d: int)
    ensures 4 <= d <= 21
  {
    var w: int := m.font[GlyphIndex(ch)];
    w - 1 - OUTLINE_WIDTH
  }

  function Step(m: Metrics, ch: byte): real { Advance(m, ch) as real * m.scale }

  lemma StepPositive(m: Metrics, ch: byte)
    requires m.scale > 0.0
    ensures Step(m, ch) > 0.0
  {
  }

  function Width(m: Metrics, s: Text): real {
    if s == [] then 0.0 else Width(m, s[..|s| - 1]) + Step(m, s[|s| - 1])
  }

  lemma WidthAppend(m: Metrics, s: Text, i: nat)
    requires i < |s|
    ensures Width(m, s[..i + 1]) == Width(m, s[..i]) + Step(m, s[i])
  {
    assert s[..i + 1][..i] == s[..i];
  }

  /** A longer prefix is strictly wider, because every advance is positive. */
  lemma {:induction false} WidthMonotone(m: Metrics, s: Text, i: nat, j: nat)
    requires i <= j <= |s| && m.scale > 0.0
    ensures Width(m, s[..i]) <= Width(m, s[..j])
    ensures i < j ==> Width(m, s[..i]) < Width(m, s[..j])
    decreases j
  {
    if i < j {
      WidthAppend(m, s, j - 1);
      StepPositive(m, s[j - 1]);
      WidthMonotone(m, s, i, j - 1);
    }
  }

  lemma FirstGlyph(s: Text)
    requires s != []
    ensures s[..1] == [s[0]] && (|s| == 1 ==> s == [s[0]])
  {
  }

  // ----- Where a line breaks

  /** strchr also finds the terminating NUL, so the end of the text counts as a space. */
  predicate BreaksAt(s: Text, i: nat)
    requires i <= |s|
  {
    i == |s| || Space(s[i])
  }

  /** The longest proper prefix strictly narrower than the limit, but at least one character. */
  ghost predicate LongestFit(m: Metrics, s: Text, limit: real, good: nat) {
    && 1 <= good <= |s|
    && (good == 1 || (good < |s| && Width(m, s[..good]) < limit))
    && (forall k :: good < k < |s| ==> Width(m, s[..k]) >= limit)
  }

  /** The last break at or before `good` and after the first character, or `good` itself. */
  ghost predicate LastBreak(s: Text, good: nat, pos: nat)
    requires good <= |s|
  {
    && 1 <= pos <= good
    && (if BreaksAt(s, pos) then forall k :: pos < k <= good ==> !BreaksAt(s, k)
        else pos == good && forall k :: 1 <= k <= good ==> !BreaksAt(s, k))
  }

  ghost predicate BreaksAfter(m: Metrics, s: Text, limit: real, pos: nat) {
    exists good :: LongestFit(m, s, limit, good) && LastBreak(s, good, pos)
  }

  lemma BreakIsUnique(m: Metrics, s: Text, limit: real, pos1: nat, pos2: nat)
    requires BreaksAfter(m, s, limit, pos1) && BreaksAfter(m, s, limit, pos2)
    ensures pos1 == pos2
  {
    var good1 :| LongestFit(m, s, limit, good1) && LastBreak(s, good1, pos1);
    var good2 :| LongestFit(m, s, limit, good2) && LastBreak(s, good2, pos2);
    assert good1 == good2;
  }

  /** The break falls on the terminator exactly for a lone glyph, and there the caller's cursor would
      step past the end. */
  lemma BreakAtTerminator(m: Metrics, s: Text, limit: real, pos: nat)
    requires BreaksAfter(m, s, limit, pos)
    ensures pos == |s| <==> |s| == 1
  {
    var good :| LongestFit(m, s, limit, good) && LastBreak(s, good, pos);
  }

  /** The line before a break is narrower than the limit, unless it is a single glyph. */
  lemma BreakFits(m: Metrics, s: Text, limit: real, pos: nat)
    requires BreaksAfter(m, s, limit, pos) && m.scale > 0.0
    ensures 1 <= pos <= |s| && (Width(m, s[..pos]) < limit || pos == 1)
  {
    var good :| LongestFit(m, s, limit, good) && LastBreak(s, good, pos);
    WidthMonotone(m, s, pos, good);
  }

  /** Nothing is broken too early: the word after the break would not have fitted as well. */
  lemma BreakIsGreedy(m: Metrics, s: Text, limit: real, pos: nat, k: nat)
    requires BreaksAfter(m, s, limit, pos)
    requires pos < k < |s| && BreaksAt(s, k)
    ensures Width(m, s[..k]) >= limit
  {
    var good :| LongestFit(m, s, limit, good) && LastBreak(s, good, pos);
  }

  /** Nothing is left for the line after a break exactly when the text ends in white space, which is all
      that does not fit, or follows the first character. */
  lemma BreakAtLastSpace(m: Metrics, s: Text, limit: real, pos: nat)
    requires BreaksAfter(m, s, limit, pos) && |s| >= 2
    ensures pos + 1 == |s| && Space(s[pos]) <==>
              Space(s[|s| - 1]) && (|s| == 2 || Width(m, s[..|s| - 1]) < limit)
  {
    var good: nat :| LongestFit(m, s, limit, good) && LastBreak(s, good, pos);
    var last := |s| - 1;
    if good == last {
      assert BreaksAt(s, last) <==> Space(s[last]);
    } else {
      assert Width(m, s[..last]) >= limit;
    }
  }

  // ----- The code

  /** The top of line k when lines are h apart. */
  function Down(y: real, k: nat, h: real): real {
    if k == 0 then y else Down(y, k - 1, h) + h
  }

  lemma {:induction false} DownIsProduct(y: real, k: nat, h: real)
    ensures Down(y, k, h) == y + k as real * h
  {
    if k > 0 {
      DownIsProduct(y, k - 1, h);
      assert k as real * h == (k - 1) as real * h + h;
    }
  }

  datatype Line = Line(x: real, y: real, text: Text)

  /** The characters of the texts with those skipped after each put back. */
  function Joined(lines: seq<Line>, gaps: seq<Text>): (s: Text)
    requires |lines| == |gaps|
  {
    if lines == [] then []
    else
      var n := |lines| - 1;
      Joined(lines[..n], gaps[..n]) + lines[n].text + gaps[n]
  }

  lemma JoinedAppend(lines: seq<Line>, gaps: seq<Text>, line: Line, gap: Text)
    requires |lines| == |gaps|
    ensures Joined(lines + [line], gaps + [gap]) == Joined(lines, gaps) + line.text + gap
  {
    assert (lines + [line])[..|lines|] == lines;
    assert (gaps + [gap])[..|gaps|] == gaps;
  }

  /** Where lines go: the left edge of the first line, how much later ones are indented, the right
      edge, the top of the first line and the distance between lines. */
  datatype Page = Page(left: real, indent: real, right: real, top: real, lineHeight: real) {
    function LineX(k: nat): real { if k == 0 then left else left + indent }

    function Room(k: nat): real { right - LineX(k) }
  }

  predicate FitsOrSingle(m: Metrics, text: Text, room: real) { Width(m, text) <= room || |text| <= 1 }

  /** Line k starts at its edge, k line heights down, and is no wider than its room or a single glyph.
      What is skipped after it is at most one white space. */
  ghost predicate LaidOutAt(m: Metrics, p: Page, lines: seq<Line>, gaps: seq<Text>, k: nat)
    requires k < |lines| == |gaps|
  {
    && lines[k].x == p.LineX(k) && lines[k].y == Down(p.top, k, p.lineHeight)
    && FitsOrSingle(m, lines[k].text, p.Room(k))
    && (gaps[k] == [] || (|gaps[k]| == 1 && Space(gaps[k][0])))
  }

  ghost predicate LaidOut(m: Metrics, p: Page, lines: seq<Line>, gaps: seq<Text>) {
    |lines| == |gaps| && forall k :: 0 <= k < |lines| ==> LaidOutAt(m, p, lines, gaps, k)
  }

  lemma LaidOutAppend(m: Metrics, p: Page, lines: seq<Line>, gaps: seq<Text>, line: Line, gap: Text)
    requires LaidOut(m, p, lines, gaps)
    requires line.x == p.LineX(|lines|) && line.y == Down(p.top, |lines|, p.lineHeight)
    requires FitsOrSingle(m, line.text, p.Room(|lines|))
    requires gap == [] || (|gap| == 1 && Space(gap[0]))
    ensures LaidOut(m, p, lines + [line], gaps + [gap])
  {
    forall k | 0 <= k < |lines|
      ensures LaidOutAt(m, p, lines + [line], gaps + [gap], k)
    {
      assert LaidOutAt(m, p, lines, gaps, k);
    }
  }

  /** Line k was broken off what was left of the text, which was too wide for its room: its text ends
      at the break, and exactly a white space there is skipped. */
  ghost predicate BrokenAt(m: Metrics, p: Page, str: Text, lines: seq<Line>, gaps: seq<Text>, k: nat)
    requires k < |lines| == |gaps|
  {
    var at := |Joined(lines[..k], gaps[..k])|;
    at <= |str| && Broken(m, p.Room(k), str[at..], lines[k].text, gaps[k])
  }

  ghost predicate Broken(m: Metrics, room: real, rest: Text, text: Text, gap: Text) {
    var pos := |text|;
    && rest != [] && Width(m, rest) > room
    && BreaksAfter(m, rest, room, pos) && pos < |rest|
    && text == rest[..pos] && gap == if Space(rest[pos]) then [rest[pos]] else []
  }

  /** Every line but the last was broken off where it had to be, and nothing follows the last. */
  ghost predicate Wrapped(m: Metrics, p: Page, str: Text, lines: seq<Line>, gaps: seq<Text>) {
    && LaidOut(m, p, lines, gaps) && lines != [] && Joined(lines, gaps) == str
    && (forall k :: 0 <= k < |lines| - 1 ==> BrokenAt(m, p, str, lines, gaps, k))
    && gaps[|gaps| - 1] == []
  }

  lemma BrokenAppend(m: Metrics, p: Page, str: Text, lines: seq<Line>, gaps: seq<Text>, line: Line, gap: Text)
    requires |lines| == |gaps| && forall k :: 0 <= k < |lines| ==> BrokenAt(m, p, str, lines, gaps, k)
    ensures forall k :: 0 <= k < |lines| ==> BrokenAt(m, p, str, lines + [line], gaps + [gap], k)
    ensures var at := |Joined(lines, gaps)|;
            at <= |str| && Broken(m, p.Room(|lines|), str[at..], line.text, gap) ==>
              BrokenAt(m, p, str, lines + [line], gaps + [gap], |lines|)
  {
    var lines', gaps' := lines + [line], gaps + [gap];
    forall k | 0 <= k < |lines|
      ensures BrokenAt(m, p, str, lines', gaps', k)
    {
      assert BrokenAt(m, p, str, lines, gaps, k);
      assert lines'[..k] == lines[..k] && gaps'[..k] == gaps[..k];
    }
    assert lines'[..|lines|] == lines && gaps'[..|lines|] == gaps;
  }

  lemma Truncated(room: real)
    ensures room.Floor as real <= room
  {
  }

  lemma NotEmpty(m: Metrics, s: Text, maxWidth: int)
    requires maxWidth >= 1 && Width(m, s) > maxWidth as real
    ensures s != []
  {
  }

  /** The text up to the end of a line and of what is skipped after it. */
  lemma JoinedUpTo(str: Text, at: nat, len: nat, skip: nat)
    requires at + len + skip <= |str|
    ensures str[..at] + str[at..][..len] + str[at..][len..len + skip] == str[..at + len + skip]
    ensures str[..|str|] == str
  {
  }

  /** The lines so far cover the text up to `at`, all broken off. */
  ghost predicate Covers(m: Metrics, p: Page, str: Text, lines: seq<Line>, gaps: seq<Text>, at: nat) {
    && LaidOut(m, p, lines, gaps) && at <= |str| && Joined(lines, gaps) == str[..at]
    && (at == 0 <==> lines == [])
    && (forall k :: 0 <= k < |lines| ==> BrokenAt(m, p, str, lines, gaps, k))
  }

  /** Where the next line goes. */
  lemma NextLine(m: Metrics, p: Page, str: Text, lines: seq<Line>, gaps: seq<Text>, at: nat)
    requires Covers(m, p, str, lines, gaps, at)
    ensures at <= |str| && p.LineX(|lines|) == if at == 0 then p.left else p.left + p.indent
  {
  }

  /** What a break makes of the rest of the text. */
  lemma BreakShape(m: Metrics, rest: Text, room: real, pos: nat, gap: Text)
    requires m.scale > 0.0 && |rest| > 1 && Width(m, rest) > room && BreaksAfter(m, rest, room, pos)
    requires gap == if pos < |rest| && Space(rest[pos]) then [rest[pos]] else []
    ensures 0 < pos < |rest| && FitsOrSingle(m, rest[..pos], room)
    ensures Broken(m, room, rest, rest[..pos], gap)
  {
    BreakFits(m, rest, room, pos);
    BreakAtTerminator(m, rest, room, pos);
  }

  lemma JoinedMore(str: Text, lines: seq<Line>, gaps: seq<Text>, at: nat, line: Line, gap: Text)
    requires |lines| == |gaps| && at <= |str| && Joined(lines, gaps) == str[..at]
    requires var rest, pos := str[at..], |line.text|;
             pos < |rest| && line.text == rest[..pos] && gap == if Space(rest[pos]) then [rest[pos]] else []
    ensures at + |line.text| + |gap| <= |str|
    ensures Joined(lines + [line], gaps + [gap]) == str[..at + |line.text| + |gap|]
  {
    var pos := |line.text|;
    assert gap == str[at..][pos..pos + |gap|];
    JoinedAppend(lines, gaps, line, gap);
    JoinedUpTo(str, at, pos, |gap|);
  }

  lemma CoverMore(m: Metrics, p: Page, str: Text, lines: seq<Line>, gaps: seq<Text>, at: nat, line: Line, gap: Text)
    requires Covers(m, p, str, lines, gaps, at) && at <= |str|
    requires Broken(m, p.Room(|lines|), str[at..], line.text, gap)
    requires line.text != [] && FitsOrSingle(m, line.text, p.Room(|lines|))
    requires line.x == p.LineX(|lines|) && line.y == Down(p.top, |lines|, p.lineHeight)
    ensures at + |line.text| + |gap| <= |str|
    ensures Covers(m, p, str, lines + [line], gaps + [gap], at + |line.text| + |gap|)
  {
    JoinedMore(str, lines, gaps, at, line, gap);
    LaidOutAppend(m, p, lines, gaps, line, gap);
    BrokenAppend(m, p, str, lines, gaps, line, gap);
  }

  /** A line broken off at `pos`, and what is skipped after it. */
  lemma CoverBroken(m: Metrics, p: Page, str: Text, lines: seq<Line>, gaps: seq<Text>, at: nat, pos: nat,
                    line: Line, gap: Text)
    requires m.scale > 0.0 && at <= |str| && Covers(m, p, str, lines, gaps, at)
    requires var rest := str[at..];
             && |rest| > 1 && Width(m, rest) > p.Room(|lines|) && BreaksAfter(m, rest, p.Room(|lines|), pos)
             && pos <= |rest| && line == Line(p.LineX(|lines|), Down(p.top, |lines|, p.lineHeight), rest[..pos])
             && gap == if pos < |rest| && Space(rest[pos]) then [rest[pos]] else []
    ensures 0 < pos < |str| - at && at + pos + |gap| <= |str|
    ensures Covers(m, p, str, lines + [line], gaps + [gap], at + pos + |gap|)
  {
    BreakShape(m, str[at..], p.Room(|lines|), pos, gap);
    CoverMore(m, p, str, lines, gaps, at, line, gap);
  }

  lemma EndWith(m: Metrics, p: Page, str: Text, lines: seq<Line>, gaps: seq<Text>, at: nat, line: Line)
    requires Covers(m, p, str, lines, gaps, at) && FitsOrSingle(m, str[at..], p.Room(|lines|))
    requires line == Line(p.LineX(|lines|), Down(p.top, |lines|, p.lineHeight), str[at..])
    ensures Wrapped(m, p, str, lines + [line], gaps + [[]])
  {
    JoinedAppend(lines, gaps, line, []);
    assert str[..at] + str[at..] + [] == str;
    LaidOutAppend(m, p, lines, gaps, line, []);
    BrokenAppend(m, p, str, lines, gaps, line, []);
  }

  /** The piece before a break, or a lone glyph that is too wide, which ends the text. */
  lemma PieceBroken(m: Metrics, p: Page, str: Text, lines: seq<Line>, gaps: seq<Text>, at: nat, pos: nat,
                    line: Line, gap: Text)
    requires m.scale > 0.0 && at <= |str| && Covers(m, p, str, lines, gaps, at)
    requires var rest := str[at..];
             && rest != [] && Width(m, rest) > p.Room(|lines|) && BreaksAfter(m, rest, p.Room(|lines|), pos)
             && pos <= |rest| && line == Line(p.LineX(|lines|), Down(p.top, |lines|, p.lineHeight), rest[..pos])
             && gap == if pos < |rest| && Space(rest[pos]) then [rest[pos]] else []
    ensures if pos == |str| - at then
              Wrapped(m, p, str, lines + [line], gaps + [gap]) && StepsPast(m, p, lines + [line])
            else at + pos + |gap| <= |str| && Covers(m, p, str, lines + [line], gaps + [gap], at + pos + |gap|)
  {
    BreakAtTerminator(m, str[at..], p.Room(|lines|), pos);
    if pos == |str| - at {
      EndWith(m, p, str, lines, gaps, at, line);
    } else {
      CoverBroken(m, p, str, lines, gaps, at, pos, line, gap);
    }
  }

  /** What is left fits its room, or nothing is left. */
  lemma PieceFits(m: Metrics, p: Page, str: Text, lines: seq<Line>, gaps: seq<Text>, at: nat, line: Line)
    requires Covers(m, p, str, lines, gaps, at) && (str[at..] == [] || Width(m, str[at..]) <= p.Room(|lines|))
    requires line == Line(p.LineX(|lines|), Down(p.top, |lines|, p.lineHeight), str[at..])
    ensures Wrapped(m, p, str, lines + [line], gaps + [[]]) && !StepsPast(m, p, lines + [line])
  {
    EndWith(m, p, str, lines, gaps, at, line);
  }

  lemma OneLine(m: Metrics, p: Page, str: Text)
    requires Width(m, str) <= p.Room(0)
    ensures Wrapped(m, p, str, [Line(p.left, p.top, str)], [[]])
    ensures Down(p.top, 1, p.lineHeight) == p.top + p.lineHeight
  {
    var line := Line(p.left, p.top, str);
    assert str[0..] == str;
    var none: seq<Line>, noGaps: seq<Text>, gap: Text := [], [], [];
    EndWith(m, p, str, none, noGaps, 0, line);
    assert none + [line] == [line] && noGaps + [gap] == [gap];
  }

  // ----- When the cursor steps past the end

  /** The last line is a single glyph that is too wide, so the cursor steps over the end of the text. */
  ghost predicate StepsPast(m: Metrics, p: Page, lines: seq<Line>) {
    && lines != []
    && var last := lines[|lines| - 1].text;
       |last| == 1 && Width(m, last) > p.Room(|lines| - 1)
  }

  /** No single glyph is wider than the room of an indented line. */
  ghost predicate GlyphsFit(m: Metrics, p: Page, s: Text) {
    GlyphsNarrow(m, s, p.Room(1))
  }

  ghost predicate LinesFit(m: Metrics, p: Page, lines: seq<Line>) {
    forall k :: 0 <= k < |lines| ==> Width(m, lines[k].text) <= p.Room(k)
  }

  lemma OneGlyph(m: Metrics, ch: byte)
    ensures Width(m, [ch]) == Step(m, ch)
  {
    assert [ch][..0] == [];
    assert Width(m, [ch]) == Width(m, []) + Step(m, ch);
  }

  lemma WidthOfLast(m: Metrics, s: Text)
    requires m.scale > 0.0 && s != []
    ensures Width(m, s) >= Width(m, [s[|s| - 1]]) > 0.0
  {
    var n := |s| - 1;
    assert s[..|s|] == s && s[..0] == [];
    WidthAppend(m, s, n);
    WidthMonotone(m, s, 0, n);
    StepPositive(m, s[n]);
    OneGlyph(m, s[n]);
  }

  lemma {:induction false} TextIsJoined(lines: seq<Line>, gaps: seq<Text>, k: nat, i: nat)
    requires |lines| == |gaps| && k < |lines| && i < |lines[k].text|
    ensures lines[k].text[i] in Joined(lines, gaps)
    decreases |lines|
  {
    var n := |lines| - 1;
    if k < n {
      TextIsJoined(lines[..n], gaps[..n], k, i);
    }
  }

  lemma RoomShrinks(p: Page, k: nat)
    requires p.indent >= 0.0
    ensures p.Room(1) <= p.Room(k)
  {
  }

  /** Where every glyph fits, every line does. */
  lemma GlyphsFitLines(m: Metrics, p: Page, str: Text, lines: seq<Line>, gaps: seq<Text>)
    requires m.scale > 0.0 && p.indent >= 0.0 && str != [] && GlyphsFit(m, p, str) && Wrapped(m, p, str, lines, gaps)
    ensures LinesFit(m, p, lines) && !StepsPast(m, p, lines)
  {
    WidthOfLast(m, [str[0]]);
    forall k | 0 <= k < |lines|
      ensures Width(m, lines[k].text) <= p.Room(k)
    {
      assert LaidOutAt(m, p, lines, gaps, k);
      RoomShrinks(p, k);
      var text := lines[k].text;
      if |text| == 1 {
        TextIsJoined(lines, gaps, k, 0);
        assert text == [text[0]];
      }
    }
  }

  /** Only a text that is wider than the first line is broken. */
  lemma FirstBreak(m: Metrics, p: Page, str: Text, lines: seq<Line>, gaps: seq<Text>)
    requires Wrapped(m, p, str, lines, gaps)
    ensures |lines| > 1 ==> Width(m, str) > p.Room(0)
  {
    if |lines| > 1 {
      assert BrokenAt(m, p, str, lines, gaps, 0);
      assert lines[..0] == [] && gaps[..0] == [] && str[0..] == str;
    }
  }

  lemma AllFit(m: Metrics, p: Page, str: Text, lines: seq<Line>, gaps: seq<Text>)
    requires m.scale > 0.0 && p.indent >= 0.0 && p.Room(0) >= 1.0 && Wrapped(m, p, str, lines, gaps)
    ensures Width(m, str) <= p.Room(0) || GlyphsFit(m, p, str) ==> LinesFit(m, p, lines) && !StepsPast(m, p, lines)
  {
    if Width(m, str) <= p.Room(0) {
      FirstBreak(m, p, str, lines, gaps);
      OnlyLine(m, p, str, lines, gaps);
    } else if GlyphsFit(m, p, str) {
      GlyphsFitLines(m, p, str, lines, gaps);
    }
  }

  /** The text of the last line ends the text, if there is any. */
  lemma LastLineEnds(m: Metrics, p: Page, str: Text, lines: seq<Line>, gaps: seq<Text>)
    requires Wrapped(m, p, str, lines, gaps)
    ensures var last := lines[|lines| - 1].text;
            last != [] ==> str != [] && str[|str| - 1] == last[|last| - 1]
  {
    var n := |lines| - 1;
    assert str == Joined(lines[..n], gaps[..n]) + lines[n].text + gaps[n];
  }

  /** The last line is empty only behind a white space that ends the text. */
  lemma LastLineEmpty(m: Metrics, p: Page, str: Text, lines: seq<Line>, gaps: seq<Text>)
    requires Wrapped(m, p, str, lines, gaps) && lines[|lines| - 1].text == [] && str != []
    ensures Space(str[|str| - 1]) && |lines| >= 2
  {
    var n := |lines| - 1;
    var front, frontGaps := lines[..n], gaps[..n];
    assert str == Joined(front, frontGaps) + [] + [];
    assert front != [];
    var k := n - 1;
    assert BrokenAt(m, p, str, lines, gaps, k);
    assert front[..k] == lines[..k] && frontGaps[..k] == gaps[..k];
    var before := Joined(lines[..k], gaps[..k]);
    assert str == before + lines[k].text + gaps[k];
    assert str[|before|..] == lines[k].text + gaps[k];
  }

  /** A text whose last glyph fits an indented line never takes the cursor past the end. */
  lemma LastGlyphFits(m: Metrics, p: Page, str: Text, lines: seq<Line>, gaps: seq<Text>)
    requires p.indent >= 0.0 && Wrapped(m, p, str, lines, gaps) && str != []
    requires Width(m, [str[|str| - 1]]) <= p.Room(1)
    ensures !StepsPast(m, p, lines)
  {
    LastLineEnds(m, p, str, lines, gaps);
    RoomShrinks(p, |lines| - 1);
    var last := lines[|lines| - 1].text;
    assert |last| == 1 ==> last == [last[0]];
  }

  /** For a text that does not fit the first line and does not end in white space, the cursor stays inside
      exactly if the last glyph fits an indented line. */
  lemma StepsPastExactly(m: Metrics, p: Page, str: Text, lines: seq<Line>, gaps: seq<Text>)
    requires m.scale > 0.0 && p.indent >= 0.0 && Wrapped(m, p, str, lines, gaps)
    requires Width(m, str) > p.Room(0) && str != [] && !Space(str[|str| - 1])
    ensures StepsPast(m, p, lines) <==> Width(m, [str[|str| - 1]]) > p.Room(1)
  {
    if Width(m, [str[|str| - 1]]) <= p.Room(1) {
      LastGlyphFits(m, p, str, lines, gaps);
    } else {
      TooWideAtLast(m, p, str, lines, gaps);
    }
  }

  lemma OnlyLine(m: Metrics, p: Page, str: Text, lines: seq<Line>, gaps: seq<Text>)
    requires Wrapped(m, p, str, lines, gaps) && |lines| == 1
    ensures lines[0].text == str
  {
    assert lines[..0] == [] && gaps[..0] == [];
    assert Joined(lines[..0], gaps[..0]) == [];
    assert str == Joined(lines[..0], gaps[..0]) + lines[0].text + gaps[0];
  }

  lemma TooWideAtLast(m: Metrics, p: Page, str: Text, lines: seq<Line>, gaps: seq<Text>)
    requires m.scale > 0.0 && Wrapped(m, p, str, lines, gaps)
    requires Width(m, str) > p.Room(0) && str != [] && !Space(str[|str| - 1])
    requires Width(m, [str[|str| - 1]]) > p.Room(1)
    ensures StepsPast(m, p, lines)
  {
    var n := |lines| - 1;
    if lines[n].text == [] {
      LastLineEmpty(m, p, str, lines, gaps);
    }
    LastLineEnds(m, p, str, lines, gaps);
    WidthOfLast(m, lines[n].text);
    assert LaidOutAt(m, p, lines, gaps, n);
    if n == 0 {
      OnlyLine(m, p, str, lines, gaps);
    }
  }

  // ----- Where the lines are on the screen

  /** The first line starts at (left, top), the others at left + indent, each `height` below the one
      before it. */
  ghost predicate Placed(lines: seq<Line>, left: real, top: real, indent: real, height: real) {
    forall k :: 0 <= k < |lines| ==> PlacedAt(lines, left, top, indent, height, k)
  }

  ghost predicate PlacedAt(lines: seq<Line>, left: real, top: real, indent: real, height: real, k: nat)
    requires k < |lines|
  {
    if k == 0 then lines[k].x == left && lines[k].y == top
    else lines[k].x == left + indent && lines[k].y == lines[k - 1].y + height
  }

  lemma LaidOutIsPlaced(m: Metrics, p: Page, lines: seq<Line>, gaps: seq<Text>)
    requires LaidOut(m, p, lines, gaps)
    ensures Placed(lines, p.left, p.top, p.indent, p.lineHeight)
  {
    forall k | 0 <= k < |lines|
      ensures PlacedAt(lines, p.left, p.top, p.indent, p.lineHeight, k)
    {
      assert LaidOutAt(m, p, lines, gaps, k);
      if k > 0 {
        assert LaidOutAt(m, p, lines, gaps, k - 1);
      }
    }
  }

  /** So line k is k glyph heights below the first. */
  lemma PlacedBelow(lines: seq<Line>, left: real, top: real, indent: real, height: real, k: nat)
    requires Placed(lines, left, top, indent, height) && k < |lines|
    ensures lines[k].y == top + k as real * height
  {
    PlacedDown(lines, left, top, indent, height, k);
    DownIsProduct(top, k, height);
  }

  lemma {:induction false} PlacedDown(lines: seq<Line>, left: real, top: real, indent: real, height: real, k: nat)
    requires Placed(lines, left, top, indent, height) && k < |lines|
    ensures lines[k].y == Down(top, k, height)
    decreases k
  {
    assert PlacedAt(lines, left, top, indent, height, k);
    if k > 0 {
      PlacedDown(lines, left, top, indent, height, k - 1);
    }
  }

  /** No line reaches beyond `right`. */
  ghost predicate Inside(m: Metrics, lines: seq<Line>, right: real) {
    forall k :: 0 <= k < |lines| ==> lines[k].x + Width(m, lines[k].text) <= right
  }

  lemma FitIsInside(m: Metrics, p: Page, lines: seq<Line>, gaps: seq<Text>)
    requires LaidOut(m, p, lines, gaps) && LinesFit(m, p, lines)
    ensures Inside(m, lines, p.right)
  {
    forall k | 0 <= k < |lines|
      ensures lines[k].x + Width(m, lines[k].text) <= p.right
    {
      assert LaidOutAt(m, p, lines, gaps, k);
    }
  }

  /** Every line but the last was broken only because the rest of the text would have reached beyond
      `right`. */
  ghost predicate HadToBreak(m: Metrics, str: Text, lines: seq<Line>, gaps: seq<Text>, right: real)
    requires |lines| == |gaps|
  {
    forall k :: 0 <= k < |lines| - 1 ==>
      var at := |Joined(lines[..k], gaps[..k])|;
      at <= |str| && lines[k].x + Width(m, str[at..]) > right
  }

  lemma WrappedHadToBreak(m: Metrics, p: Page, str: Text, lines: seq<Line>, gaps: seq<Text>)
    requires Wrapped(m, p, str, lines, gaps)
    ensures HadToBreak(m, str, lines, gaps, p.right)
  {
    forall k | 0 <= k < |lines| - 1
      ensures var at := |Joined(lines[..k], gaps[..k])|;
              at <= |str| && lines[k].x + Width(m, str[at..]) > p.right
    {
      assert BrokenAt(m, p, str, lines, gaps, k) && LaidOutAt(m, p, lines, gaps, k);
    }
  }

  /** What is on the screen after drawing: nothing without room for a pixel; else the lines where they
      belong, broken where they had to be and, where every glyph fits, inside; the position below them;
      and whether the cursor has stepped past the end of the text. */
  ghost predicate Drawn(m: Metrics, p: Page, str: Text, lines: seq<Line>, gaps: seq<Text>, y: real, pastEnd: bool) {
    if p.right - p.left < 1.0 then lines == [] && y == p.top && !pastEnd
    else
      && Wrapped(m, p, str, lines, gaps)
      && Placed(lines, p.left, p.top, p.indent, p.lineHeight)
      && HadToBreak(m, str, lines, gaps, p.right)
      && y == lines[|lines| - 1].y + p.lineHeight
      && (pastEnd <==> StepsPast(m, p, lines))
      && (Width(m, str) <= p.right - p.left || GlyphsNarrow(m, str, p.right - p.left - p.indent) ==>
            Inside(m, lines, p.right) && !pastEnd)
  }

  lemma FitsInside(m: Metrics, p: Page, str: Text, lines: seq<Line>, gaps: seq<Text>)
    requires m.scale > 0.0 && p.indent >= 0.0 && p.Room(0) >= 1.0 && Wrapped(m, p, str, lines, gaps)
    ensures Width(m, str) <= p.right - p.left || GlyphsNarrow(m, str, p.right - p.left - p.indent) ==>
              Inside(m, lines, p.right) && !StepsPast(m, p, lines)
  {
    AllFit(m, p, str, lines, gaps);
    assert p.right - p.left == p.Room(0) && p.right - p.left - p.indent == p.Room(1);
    if LinesFit(m, p, lines) {
      FitIsInside(m, p, lines, gaps);
    }
  }

  lemma WrappedIsDrawn(m: Metrics, p: Page, str: Text, lines: seq<Line>, gaps: seq<Text>, y: real, pastEnd: bool)
    requires m.scale > 0.0 && p.indent >= 0.0 && p.Room(0) >= 1.0 && Wrapped(m, p, str, lines, gaps)
    requires y == Down(p.top, |lines|, p.lineHeight) && (pastEnd <==> StepsPast(m, p, lines))
    ensures Drawn(m, p, str, lines, gaps, y, pastEnd)
  {
    LaidOutIsPlaced(m, p, lines, gaps);
    WrappedHadToBreak(m, p, str, lines, gaps);
    assert LaidOutAt(m, p, lines, gaps, |lines| - 1);
    FitsInside(m, p, str, lines, gaps);
  }

  /** No glyph of the text is wider than that. */
  ghost predicate GlyphsNarrow(m: Metrics, s: Text, room: real) {
    forall i :: 0 <= i < |s| ==> Width(m, [s[i]]) <= room
  }

  lemma BreakInside(m: Metrics, s: Text, limit: real, pos: nat)
    requires BreaksAfter(m, s, limit, pos)
    ensures 1 <= pos <= |s|
  {
  }

  /** One glyph's rectangle on the screen. */
  datatype Quad = Quad(glyph: nat, left: real, top: real, right: real, bottom: real)

  /** A glyph starts where the text before it ends, and reaches over the padding and the outline of the
      next one. */
  function GlyphQuad(m: Metrics, x: real, y: real, str: Text, k: nat): Quad
    requires k < |str|
  {
    Quad(GlyphIndex(str[k]), x + Width(m, str[..k]), y,
         x + Width(m, str[..k + 1]) + (1 + OUTLINE_WIDTH) as real * m.scale, y + MAX_GLYPH_HEIGHT as real * m.scale)
  }

  lemma PaddedGlyph(glyphWidth: real, scale: real)
    ensures glyphWidth * scale ==
              (glyphWidth - 1.0 - OUTLINE_WIDTH as real) * scale + (1 + OUTLINE_WIDTH) as real * scale
  {
  }

  lemma NextQuad(m: Metrics, x: real, y: real, str: Text, i: nat, pen: real)
    requires i < |str| && pen == x + Width(m, str[..i])
    ensures Quad(GlyphIndex(str[i]), pen, y, pen + Step(m, str[i]) + (1 + OUTLINE_WIDTH) as real * m.scale,
                 y + MAX_GLYPH_HEIGHT as real * m.scale) == GlyphQuad(m, x, y, str, i)
    ensures pen + Step(m, str[i]) == x + Width(m, str[..i + 1])
  {
    WidthAppend(m, str, i);
  }

  class Renderer {
    const mBorderWidth: real := 10.0
    const mIndentMult: real := 30.0
    const mFont: Font
    var mScale: real
    var mScreenWidth: nat
    var mScreenHeight: nat

    constructor ()
      ensures mFont == GLYPH_WIDTH && mScale == 1.0 && mScreenWidth == 0 && mScreenHeight == 0
    {
      TableSizes();
      mFont := GLYPH_WIDTH;
      mScale, mScreenWidth, mScreenHeight := 1.0, 0, 0;
    }

    function Measure(): Metrics
      reads this`mScale
    {
      Metrics(mFont, mScale)
    }

    method SetScreenSize(width: nat, height: nat)
      modifies this`mScreenWidth, this`mScreenHeight
      ensures mScreenWidth == width && mScreenHeight == height
    {
      mScreenWidth, mScreenHeight := width, height;
    }

    function ScaledGlyphHeight(): real
      reads this`mScale
    {
      MAX_GLYPH_HEIGHT as real * mScale
    }

    /** The tallest axis then holds exactly that many lines. */
    method SetProportionalScale(linesPerScreen: real)
      requires linesPerScreen > 0.0
      modifies this`mScale
      ensures mScreenWidth == 0 || mScreenHeight == 0 ==> mScale == old(mScale)
      ensures mScreenWidth > 0 && mScreenHeight > 0 ==>
                mScale > 0.0 && ScaledGlyphHeight() * linesPerScreen ==
                  (if mScreenWidth > mScreenHeight then mScreenWidth else mScreenHeight) as real
    {
      if mScreenWidth == 0 || mScreenHeight == 0 {
        return;
      }
      var tallest := (if mScreenWidth > mScreenHeight then mScreenWidth else mScreenHeight) as real;
      mScale := tallest / (linesPerScreen * MAX_GLYPH_HEIGHT as real);
      assert mScale * (linesPerScreen * 34.0) == tallest;
    }

    method ComputeScaledStringWidth(str: Text, len: nat) returns (width: real)
      requires len <= |str|
      ensures width == Width(Measure(), str[..len])
    {
      width := 0.0;
      for i := 0 to len
        invariant width == Width(Measure(), str[..i])
      {
        var chi := GlyphIndex(str[i]);
        var glyphWidth := mFont[chi] as int as real;
        width := width + (glyphWidth - 1.0 - OUTLINE_WIDTH as real) * mScale;
        WidthAppend(Measure(), str, i);
      }
    }

    /** One turn of drawString: the glyph's rectangle, and where the pen goes. */
    method DrawGlyph(x: real, y: real, ch: byte) returns (x': real, quad: Quad)
      ensures x' == x + Step(Measure(), ch)
      ensures quad == Quad(GlyphIndex(ch), x, y, x' + (1 + OUTLINE_WIDTH) as real * mScale,
                           y + MAX_GLYPH_HEIGHT as real * mScale)
    {
      var chi := GlyphIndex(ch);
      var glyphWidth := mFont[chi] as int as real;
      PaddedGlyph(glyphWidth, mScale);
      quad := Quad(chi, x, y, x + glyphWidth * mScale, y + MAX_GLYPH_HEIGHT as real * mScale);
      x' := x + (glyphWidth - 1.0 - OUTLINE_WIDTH as real) * mScale;
    }

    /** Where the glyphs go on the screen, and where the pen ends. */
    method DrawString(x: real, y: real, str: Text) returns (x': real, quads: seq<Quad>)
      ensures x' == x + Width(Measure(), str)
      ensures |quads| == |str| && forall k :: 0 <= k < |str| ==> quads[k] == GlyphQuad(Measure(), x, y, str, k)
    {
      x', quads := x, [];
      for i := 0 to |str|
        invariant x' == x + Width(Measure(), str[..i])
        invariant |quads| == i && forall k :: 0 <= k < i ==> quads[k] == GlyphQuad(Measure(), x, y, str, k)
      {
        NextQuad(Measure(), x, y, str, i, x');
        var quad;
        x', quad := DrawGlyph(x', y, str[i]);
        quads := quads + [quad];
      }
      assert str[..|str|] == str;
    }

    method BreakString(str: Text, maxWidth: real) returns (brk: Option<nat>)
      requires mScale > 0.0
      ensures brk == None <==> str == [] || Width(Measure(), str) <= maxWidth
      ensures brk.Some? ==> BreaksAfter(Measure(), str, maxWidth, brk.value)
    {
      var len := |str|;
      if len == 0 {
        return None;
      }
      assert str[..len] == str;
      var stringWidth := ComputeScaledStringWidth(str, len);
      if stringWidth <= maxWidth {
        return None;
      }
      var goodPos := 0;
      var i := 0;
      while i < len
        invariant 0 <= i <= len && goodPos == (if i == 0 then 0 else i - 1)
        invariant i > 0 ==> Width(Measure(), str[..goodPos]) < maxWidth
      {
        stringWidth := ComputeScaledStringWidth(str, i);
        if stringWidth < maxWidth {
          goodPos := i;
        } else {
          forall k | i <= k < len
            ensures Width(Measure(), str[..k]) >= maxWidth
          {
            WidthMonotone(Measure(), str, i, k);
          }
          break;
        }
        i := i + 1;
      }
      if goodPos == 0 {
        goodPos := 1;
      }
      ghost var good := goodPos;
      assert LongestFit(Measure(), str, maxWidth, good);
      i := goodPos;
      while i > 0
        invariant 0 <= i <= good && goodPos == good
        invariant forall k :: i < k <= good ==> !BreaksAt(str, k)
      {
        if BreaksAt(str, i) {
          goodPos := i;
          break;
        }
        i := i - 1;
      }
      assert LastBreak(str, good, goodPos);
      brk := Some(goodPos);
    }

    /** The left edge after moving it inside the border. */
    function Inset(pos: real): real { if pos < mBorderWidth then mBorderWidth else pos }

    /** The page that wrapping at a position uses. */
    function PageAt(xpos: real, ypos: real): (p: Page)
      reads this`mScale, this`mScreenWidth
      ensures mScale > 0.0 ==> p.indent > 0.0
    {
      Page(Inset(xpos), mIndentMult * mScale, mScreenWidth as real - mBorderWidth, Inset(ypos), ScaledGlyphHeight())
    }

    /** One turn of the loop: the line that starts at `at`, what is skipped after it, and where the
        next line starts, if any, which is past the end after a lone glyph that is too wide. */
    method NextPiece(p: Page, str: Text, at: nat, y: real, ghost lines: seq<Line>, ghost gaps: seq<Text>)
      returns (line: Line, ghost gap: Text, next: Option<nat>)
      requires mScale > 0.0 && str != []
      requires Covers(Measure(), p, str, lines, gaps, at) && at <= |str|
      requires y == Down(p.top, |lines|, p.lineHeight)
      ensures next.Some? && next.value <= |str| ==>
                next.value > at && Covers(Measure(), p, str, lines + [line], gaps + [gap], next.value)
      ensures next == None || next.value > |str| ==> Wrapped(Measure(), p, str, lines + [line], gaps + [gap])
      ensures next == None ==> !StepsPast(Measure(), p, lines + [line])
      ensures next.Some? && next.value > |str| ==> StepsPast(Measure(), p, lines + [line])
    {
      ghost var m := Measure();
      NextLine(m, p, str, lines, gaps, at);
      var rest := str[at..];
      var xposAdj := if at == 0 then p.left else p.left + p.indent;
      assert p.right - xposAdj == p.Room(|lines|);
      var brk := BreakString(rest, p.right - xposAdj);
      if brk == None {
        line, gap, next := Line(xposAdj, y, rest), [], None;
        PieceFits(m, p, str, lines, gaps, at, line);
      } else {
        var pos := brk.value;
        BreakInside(m, rest, p.right - xposAdj, pos);
        line := Line(xposAdj, y, rest[..pos]);
        gap := if pos < |rest| && Space(rest[pos]) then [rest[pos]] else [];
        PieceBroken(m, p, str, lines, gaps, at, pos, line, gap);
        next := Some(at + pos + if BreaksAt(rest, pos) then 1 else 0);
      }
    }

    /** The loop over the pieces of a string, until the cursor is done or steps past the end; what the
        code does there is not modelled. */
    method WrapLines(p: Page, str: Text) returns (lines: seq<Line>, y: real, pastEnd: bool, ghost gaps: seq<Text>)
      requires mScale > 0.0 && str != []
      ensures Wrapped(Measure(), p, str, lines, gaps)
      ensures y == Down(p.top, |lines|, p.lineHeight)
      ensures pastEnd <==> StepsPast(Measure(), p, lines)
    {
      lines, y, gaps := [], p.top, [];
      var start := Some(0);
      while start.Some? && start.value <= |str|
        invariant |gaps| == |lines| && y == Down(p.top, |lines|, p.lineHeight)
        invariant start.Some? && start.value <= |str| ==> Covers(Measure(), p, str, lines, gaps, start.value)
        invariant start == None || start.value > |str| ==>
                    && Wrapped(Measure(), p, str, lines, gaps)
                    && (start.Some? <==> StepsPast(Measure(), p, lines))
        decreases if start.Some? && start.value <= |str| then |str| - start.value + 1 else 0
      {
        var line, gap, next := NextPiece(p, str, start.value, y, lines, gaps);
        lines, gaps := lines + [line], gaps + [gap];
        y := y + p.lineHeight;
        start := next;
      }
      pastEnd := start.Some?;
    }

    /** The text on one line if it fits there, else wrapped. The room is truncated to whole pixels. */
    method PlaceText(p: Page, str: Text) returns (lines: seq<Line>, y: real, pastEnd: bool, ghost gaps: seq<Text>)
      requires mScale > 0.0
      ensures p.Room(0) < 1.0 ==> lines == [] && y == p.top && !pastEnd
      ensures p.Room(0) >= 1.0 ==>
                && Wrapped(Measure(), p, str, lines, gaps) && y == Down(p.top, |lines|, p.lineHeight)
                && (pastEnd <==> StepsPast(Measure(), p, lines))
    {
      lines, y, pastEnd, gaps := [], p.top, false, [];
      var maxWidth := (p.right - p.left).Floor;
      if maxWidth < 1 {
        return;
      }
      JoinedUpTo(str, 0, |str|, 0);
      var stringWidth := ComputeScaledStringWidth(str, |str|);
      if stringWidth <= maxWidth as real {
        Truncated(p.right - p.left);
        OneLine(Measure(), p, str);
        lines, gaps := [Line(p.left, y, str)], [[]];
        y := y + p.lineHeight;
      } else {
        NotEmpty(Measure(), str, maxWidth);
        lines, y, pastEnd, gaps := WrapLines(p, str);
      }
    }

    /** The text on a page. */
    method DrawOnPage(p: Page, str: Text) returns (lines: seq<Line>, y: real, pastEnd: bool, ghost gaps: seq<Text>)
      requires mScale > 0.0 && p.indent >= 0.0
      ensures Drawn(Measure(), p, str, lines, gaps, y, pastEnd)
      ensures y == Down(p.top, |lines|, p.lineHeight)
    {
      lines, y, pastEnd, gaps := PlaceText(p, str);
      if p.Room(0) >= 1.0 {
        WrappedIsDrawn(Measure(), p, str, lines, gaps, y, pastEnd);
      }
    }

    /** Terminates, or steps past the end, on every text. The first line starts at the given position,
        moved inside the border, later ones indented and one glyph height further down each; the lines
        with the skipped white space put back are the text; a line is broken only if the rest of the text
        does not fit, and none reaches into the border where every glyph fits. The position returned is
        one glyph height below the last line. The cursor steps past the end exactly after a lone last
        glyph that is too wide. */
    method DrawWrappedString(xpos: real, ypos: real, str: Text)
      returns (lines: seq<Line>, y: real, pastEnd: bool, ghost gaps: seq<Text>)
      requires mScale > 0.0
      ensures mScreenWidth == 0 || mScreenHeight == 0 ==> lines == [] && y == ypos && !pastEnd
      ensures mScreenWidth > 0 && mScreenHeight > 0 ==>
                var p := PageAt(xpos, ypos);
                && p.left == (if xpos < 10.0 then 10.0 else xpos) && p.top == (if ypos < 10.0 then 10.0 else ypos)
                && p.right == mScreenWidth as real - 10.0 && p.indent == 30.0 * mScale && p.lineHeight == 34.0 * mScale
                && Drawn(Measure(), p, str, lines, gaps, y, pastEnd)
                && y == p.top + |lines| as real * p.lineHeight
    {
      lines, y, pastEnd, gaps := [], ypos, false, [];
      if mScreenWidth == 0 || mScreenHeight == 0 {
        return;
      }
      var p := PageAt(xpos, ypos);
      lines, y, pastEnd, gaps := DrawOnPage(p, str);
      DownIsProduct(p.top, |lines|, p.lineHeight);
    }
  }
}
