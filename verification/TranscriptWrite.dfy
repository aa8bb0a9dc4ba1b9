/** What printed text and colour codes come to, stated without the machine. */
module TranscriptWrite {
  import opened Chars
  import opened Options
  import opened Transcript

  predicate Plain(s: seq<char>) { forall i :: 0 <= i < |s| ==> !IsControl(s[i]) }

  /** The row a stretch of text leaves: the text where it was written, what was there elsewhere, blanks in any gap. */
  predicate Overwritten(r: Row, row: Row, col: nat, s: seq<char>, color: Color) {
    && |r| == (if col + |s| > |row| then col + |s| else |row|)
    && forall j :: 0 <= j < |r| ==>
         r[j] == if col <= j < col + |s| then Cell(s[j - col], color)
                 else if j < |row| then row[j] else Cell(' ', None)
  }

  /** `r` is `e` with `s` printed: on the cursor's row, over what was there, in the pen's colour, and nowhere else. */
  predicate Printed(e: Emulator, r: Emulator, s: seq<char>) {
    && e.row < |e.lines| == |r.lines|
    && r == e.(lines := e.lines[e.row := r.lines[e.row]], col := e.col + |s|)
    && Overwritten(r.lines[e.row], e.lines[e.row], e.col, s, e.pen.color)
  }

  lemma PrintedOn(e: Emulator, mid: Emulator, r: Emulator, c: char, s: seq<char>)
    requires Printed(e, mid, [c]) && Printed(mid, r, s) && s != []
    ensures Printed(e, r, [c] + s)
  {
    assert e.lines[e.row := mid.lines[e.row]][e.row := r.lines[e.row]] == e.lines[e.row := r.lines[e.row]];
  }

  /** Printable text lands on the cursor's row, and every other row, the pen and the saved cursor stay as they were. */
  lemma {:induction false} TextOverwrites(e: Emulator, s: seq<char>, palette: Palette)
    requires Valid(e) && e.mode == Ground && Plain(s) && s != []
    ensures Printed(e, Feed(e, s, palette), s)
    decreases |s|
  {
    var next := Step(e, s[0], palette);
    StepKeepsValid(e, s[0], palette);
    assert s == [s[0]] + s[1..];
    if |s| == 1 {
      FeedOne(e, s[0], palette);
    } else {
      assert forall i :: 0 <= i < |s[1..]| ==> s[1..][i] == s[i + 1];
      TextOverwrites(next, s[1..], palette);
      PrintedOn(e, next, Feed(e, s, palette), s[0], s[1..]);
    }
  }

  /** A redrawn line shows the redraw, and the old line only where it was longer. */
  lemma RedrawReplacesLine(e: Emulator, s: seq<char>, palette: Palette)
    requires Valid(e) && e.mode == Ground && Plain(s) && s != []
    ensures var r := Feed(e, ['\r'] + s, palette);
            && |r.lines| == |e.lines|
            && Overwritten(r.lines[e.row], e.lines[e.row], 0, s, e.pen.color)
            && forall i :: 0 <= i < |e.lines| && i != e.row ==> r.lines[i] == e.lines[i]
  {
    FeedConcat(e, ['\r'], s, palette);
    FeedOne(e, '\r', palette);
    TextOverwrites(e.(col := 0), s, palette);
  }

  // ----- Colour codes -----

  /** Bold brightens a base colour whether it comes before or after it. */
  lemma BoldAndBaseCommute(b: BaseIdx, pen: Pen, palette: Palette)
    ensures Sgr([1, 30 + b], pen, palette) == Sgr([30 + b, 1], pen, palette)
  {
    assert [1, 30 + b][1..] == [30 + b];
    assert [30 + b, 1][1..] == [1];
  }

  /** Background colours, indexed or direct, take their arguments with them and change nothing. */
  lemma BackgroundIsIgnored(bg: seq<U16>, rest: seq<U16>, pen: Pen, palette: Palette)
    requires |bg| >= 2 && bg[0] == 48 && ((bg[1] == 5 && |bg| == 3) || (bg[1] == 2 && |bg| == 5))
    ensures Sgr(bg + rest, pen, palette) == Sgr(rest, pen, palette)
  {
    if rest != [] {
      assert (bg + rest)[|bg|..] == rest;
    }
  }

  /** Past the theme's sixteen, no two indices name one colour. */
  lemma FixedColorsAreDistinct(i: Byte, j: Byte, palette: Palette)
    requires i >= 16 && j >= 16 && IndexedColor(i, palette) == IndexedColor(j, palette)
    ensures i == j
  {
    CubeLevelIs(i);
    CubeLevelIs(j);
  }

  lemma CubeLevelIs(i: Byte)
    requires i >= 16
    ensures i <= 231 ==> var v := i - 16; v == 36 * (v / 36) + 6 * ((v / 6) % 6) + v % 6
  {}
}
