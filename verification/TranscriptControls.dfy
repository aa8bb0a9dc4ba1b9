/** What each control and escape sequence comes to, stated on the characters of a recording. */
module TranscriptControls {
  import opened Chars
  import opened Options
  import opened Decimals
  import opened Transcript
  import opened TranscriptWrite
  import opened TranscriptRoundTrip

  /** ESC, bracket, final character. */
  function Bare(fin: char): seq<char> { [ESC, '[', fin] }

  /** ESC, bracket, one number, final character. */
  function Numbered(n: U16, fin: char): seq<char> { [ESC, '['] + (Decimal(n) + [fin]) }

  lemma BareIs(e: Emulator, fin: char, palette: Palette)
    requires Valid(e) && e.mode == Ground && IsFinal(fin) && !IsSkipped(fin)
    ensures Feed(e, Bare(fin), palette) == Dispatch(e, [], fin, palette)
  {
    FeedConcat(e, [ESC, '['], [fin], palette);
    assert [ESC, '['] + [fin] == Bare(fin);
    FeedTwo(e, ESC, '[', palette);
    FeedOne(e.(mode := Csi([], None)), fin, palette);
  }

  lemma NumberedIs(e: Emulator, n: U16, fin: char, palette: Palette)
    requires Valid(e) && e.mode == Ground && IsFinal(fin)
    ensures Feed(e, Numbered(n, fin), palette) == Dispatch(e, [n], fin, palette)
  {
    FeedCsi(e, [], n, fin, palette);
    assert Params([]) == [];
    assert [] + [n] == [n];
    assert Params([]) + (Decimal(n) + [fin]) == Decimal(n) + [fin];
  }

  // ----- Erasing -----

  /** `r` is `e` with the cursor's row cut to its first `n` cells; a shorter row stays. */
  predicate CutTo(e: Emulator, r: Emulator, n: nat) {
    && e.row < |e.lines| == |r.lines| && r == e.(lines := r.lines)
    && (forall i :: 0 <= i < |e.lines| && i != e.row ==> r.lines[i] == e.lines[i])
    && |r.lines[e.row]| == (if n < |e.lines[e.row]| then n else |e.lines[e.row]|)
    && forall j :: 0 <= j < |r.lines[e.row]| ==> r.lines[e.row][j] == e.lines[e.row][j]
  }

  /** Erase to the end of the line: exactly the cells before the cursor stay. */
  lemma EraseKeepsWhatIsBefore(e: Emulator, palette: Palette)
    requires Valid(e) && e.mode == Ground
    ensures CutTo(e, Feed(e, Bare('K'), palette), e.col)
    ensures CutTo(e, Feed(e, Numbered(0, 'K'), palette), e.col)
  {
    BareIs(e, 'K', palette);
    NumberedIs(e, 0, 'K', palette);
  }

  /** The text, cell by cell, in one colour. */
  function Painted(s: seq<char>, color: Color): (row: Row)
    ensures |row| == |s|
  {
    seq(|s|, i requires 0 <= i < |s| => Cell(s[i], color))
  }

  /** Back to the start, redraw, erase the rest: the line shows the redraw and nothing of what it was. */
  lemma RedrawAndErase(e: Emulator, s: seq<char>, palette: Palette)
    requires Valid(e) && e.mode == Ground && Plain(s)
    ensures var r := Feed(e, ['\r'] + s + Bare('K'), palette);
            && |r.lines| == |e.lines|
            && r.lines[e.row] == Painted(s, e.pen.color)
            && (forall i :: 0 <= i < |e.lines| && i != e.row ==> r.lines[i] == e.lines[i])
            && r == e.(lines := r.lines, col := |s|)
  {
    FeedConcat(e, ['\r'] + s, Bare('K'), palette);
    FeedConcat(e, ['\r'], s, palette);
    FeedOne(e, '\r', palette);
    var start := e.(col := 0);
    if s == [] {
      assert ['\r'] + s == ['\r'];
    } else {
      TextOverwrites(start, s, palette);
    }
    var typed := Feed(start, s, palette);
    EraseKeepsWhatIsBefore(typed, palette);
    var r := Feed(typed, Bare('K'), palette);
    assert r.lines[e.row] == Painted(s, e.pen.color);
    assert r.lines == e.lines[e.row := Painted(s, e.pen.color)];
  }

  /** Erase the whole line: it is empty and the cursor at its start. */
  lemma EraseWholeLine(e: Emulator, palette: Palette)
    requires Valid(e) && e.mode == Ground
    ensures var r := Feed(e, Numbered(2, 'K'), palette);
            && |r.lines| == |e.lines| && r.lines[e.row] == [] && r == e.(lines := r.lines, col := 0)
            && forall i :: 0 <= i < |e.lines| && i != e.row ==> r.lines[i] == e.lines[i]
  {
    NumberedIs(e, 2, 'K', palette);
  }

  /** Erase down: the rows above stay, this one is cut at the cursor, the ones below are gone. */
  lemma EraseDownCuts(e: Emulator, palette: Palette)
    requires Valid(e) && e.mode == Ground
    ensures var r := Feed(e, Bare('J'), palette);
            && |r.lines| == e.row + 1 && r == e.(lines := r.lines)
            && r.lines[..e.row] == e.lines[..e.row]
            && r.lines[e.row] == e.lines[e.row][..if e.col < |e.lines[e.row]| then e.col else |e.lines[e.row]|]
    ensures Feed(e, Numbered(0, 'J'), palette) == Feed(e, Bare('J'), palette)
  {
    BareIs(e, 'J', palette);
    NumberedIs(e, 0, 'J', palette);
  }

  // ----- Moving -----

  /** Right, left, to a column, up and down: by the number given, at least one, and never off the written grid. */
  lemma Motions(e: Emulator, n: U16, palette: Palette)
    requires Valid(e) && e.mode == Ground
    ensures var k := if n == 0 then 1 else n;
            && Feed(e, Numbered(n, 'C'), palette) == e.(col := e.col + k)
            && Feed(e, Numbered(n, 'D'), palette) == e.(col := if k <= e.col then e.col - k else 0)
            && Feed(e, Numbered(n, 'G'), palette) == e.(col := k - 1)
            && Feed(e, Numbered(n, 'A'), palette) == e.(row := if k <= e.row then e.row - k else 0)
            && Feed(e, Numbered(n, 'B'), palette)
               == e.(row := if e.row + k < |e.lines| then e.row + k else |e.lines| - 1)
  {
    NumberedIs(e, n, 'C', palette);
    NumberedIs(e, n, 'D', palette);
    NumberedIs(e, n, 'G', palette);
    NumberedIs(e, n, 'A', palette);
    NumberedIs(e, n, 'B', palette);
  }

  /** Without a number the motions go by one, and to the first column. */
  lemma BareMotions(e: Emulator, palette: Palette)
    requires Valid(e) && e.mode == Ground
    ensures forall fin :: fin in "CDGAB" ==> Feed(e, Bare(fin), palette) == Feed(e, Numbered(1, fin), palette)
  {
    forall fin | fin in "CDGAB"
      ensures Feed(e, Bare(fin), palette) == Feed(e, Numbered(1, fin), palette)
    {
      BareIs(e, fin, palette);
      NumberedIs(e, 1, fin, palette);
    }
  }

  /** A tab goes to the next multiple of eight; the other controls move as their names say, or do nothing. */
  lemma Controls(e: Emulator, palette: Palette)
    requires Valid(e) && e.mode == Ground
    ensures var r := Feed(e, ['\t'], palette);
            r == e.(col := r.col) && r.col % 8 == 0 && e.col < r.col <= e.col + 8
    ensures Feed(e, [BACKSPACE], palette) == e.(col := if e.col == 0 then 0 else e.col - 1)
    ensures Feed(e, ['\r'], palette) == e.(col := 0)
    ensures forall c :: IsControl(c) && c !in ['\t', '\n', '\r', BACKSPACE, ESC] ==> Feed(e, [c], palette) == e
  {
    FeedOne(e, '\t', palette);
    FeedOne(e, BACKSPACE, palette);
    FeedOne(e, '\r', palette);
    forall c | IsControl(c) && c !in ['\t', '\n', '\r', BACKSPACE, ESC]
      ensures Feed(e, [c], palette) == e
    {
      FeedOne(e, c, palette);
    }
  }

  /** A line feed goes to the start of the next row, which is made if there is none. */
  lemma LineFeeds(e: Emulator, palette: Palette)
    requires Valid(e) && e.mode == Ground
    ensures var r := Feed(e, ['\n'], palette);
            && r == e.(lines := r.lines, row := e.row + 1, col := 0)
            && r.lines == if e.row + 1 < |e.lines| then e.lines else e.lines + [[]]
  {
    FeedOne(e, '\n', palette);
  }

  /** The cursor is saved with its column, and restored to it, on a row that still exists. */
  lemma SavedCursorReturns(e: Emulator, palette: Palette)
    requires Valid(e) && e.mode == Ground
    ensures Feed(e, [ESC, '7'], palette) == e.(saved := Some(Pos(e.row, e.col)))
    ensures e.saved.None? ==> Feed(e, [ESC, '8'], palette) == e
    ensures e.saved.Some? ==>
              var p := e.saved.value;
              Feed(e, [ESC, '8'], palette)
              == e.(row := if p.row < |e.lines| then p.row else |e.lines| - 1, col := p.col)
  {
    FeedTwo(e, ESC, '7', palette);
    FeedTwo(e, ESC, '8', palette);
  }

  // ----- What leaves no trace -----

  /** Clearing the screen, cursor addressing, and every other sequence the dump does not follow. */
  lemma OthersAreIgnored(e: Emulator, n: U16, fin: char, palette: Palette)
    requires Valid(e) && e.mode == Ground && IsFinal(fin)
    requires fin !in "mKCDGABJ" || (fin == 'J' && n != 0) || (fin == 'K' && n != 0 && n != 2)
    ensures Feed(e, Numbered(n, fin), palette) == e
    ensures fin !in "JK" ==> Feed(e, Bare(fin), palette) == e
  {
    NumberedIs(e, n, fin, palette);
    if fin !in "JK" {
      BareIs(e, fin, palette);
    }
  }

  lemma {:induction false} OscText(e: Emulator, t: seq<char>, palette: Palette)
    requires Valid(e) && e.mode == Osc(false) && BEL !in t && ESC !in t
    ensures Feed(e, t, palette) == e
    decreases |t|
  {
    if t != [] {
      StepKeepsValid(e, t[0], palette);
      assert t[0] in t;
      OscText(e, t[1..], palette);
    }
  }

  /** A title or a working directory, ended either way. */
  lemma OscIsSilent(e: Emulator, t: seq<char>, palette: Palette)
    requires Valid(e) && e.mode == Ground && BEL !in t && ESC !in t
    ensures Feed(e, [ESC, ']'] + t + [BEL], palette) == e
    ensures Feed(e, [ESC, ']'] + t + [ESC, '\\'], palette) == e
  {
    FeedTwo(e, ESC, ']', palette);
    var osc := e.(mode := Osc(false));
    FeedConcat(e, [ESC, ']'], t, palette);
    OscText(osc, t, palette);
    FeedConcat(e, [ESC, ']'] + t, [BEL], palette);
    FeedOne(osc, BEL, palette);
    FeedConcat(e, [ESC, ']'] + t, [ESC, '\\'], palette);
    FeedTwo(osc, ESC, '\\', palette);
  }

  /** A charset designation, and an escape with any other character. */
  lemma ShortEscapesAreSilent(e: Emulator, c: char, palette: Palette)
    requires Valid(e) && e.mode == Ground
    ensures Feed(e, [ESC, '('] + [c], palette) == e && Feed(e, [ESC, ')'] + [c], palette) == e
    ensures c !in "[]()78" ==> Feed(e, [ESC, c], palette) == e
  {
    FeedTwo(e, ESC, '(', palette);
    FeedTwo(e, ESC, ')', palette);
    FeedConcat(e, [ESC, '('], [c], palette);
    FeedConcat(e, [ESC, ')'], [c], palette);
    FeedOne(e.(mode := Charset), c, palette);
    FeedTwo(e, ESC, c, palette);
  }

  lemma PrivateBody(e: Emulator, n: U16, fin: char, palette: Palette)
    requires Valid(e) && e.mode == Ground && fin in "hl"
    ensures Feed(e.(mode := Csi([], None)), Decimal(n) + [fin], palette) == e
  {
    var csi := e.(mode := Csi([], None));
    ParseDecimal(e, [], n, palette);
    FeedConcat(csi, Decimal(n), [fin], palette);
    FeedOne(e.(mode := Csi([], Some(n))), fin, palette);
  }

  /** A private mode is read as its number and ignored with its final. */
  lemma PrivateModesAreSilent(e: Emulator, n: U16, fin: char, palette: Palette)
    requires Valid(e) && e.mode == Ground && fin in "hl"
    ensures Feed(e, [ESC, '['] + (['?'] + (Decimal(n) + [fin])), palette) == e
  {
    var csi, body := e.(mode := Csi([], None)), Decimal(n) + [fin];
    FeedConcat(e, [ESC, '['], ['?'] + body, palette);
    FeedTwo(e, ESC, '[', palette);
    FeedConcat(csi, ['?'], body, palette);
    FeedOne(csi, '?', palette);
    PrivateBody(e, n, fin, palette);
  }

  // ----- Colours -----

  /** Base colours brighten under bold, bright ones are bright without it, and both can be taken back. */
  lemma BaseColours(b: BaseIdx, pen: Pen, palette: Palette)
    ensures Sgr([30 + b], pen, palette) == Pen(Some(b), Some(palette[if pen.bold then b + 8 else b]), pen.bold)
    ensures Sgr([90 + b], pen, palette) == Pen(Some(b), Some(palette[b + 8]), pen.bold)
    ensures Sgr([1], Sgr([30 + b], pen, palette), palette) == Pen(Some(b), Some(palette[b + 8]), true)
    ensures Sgr([22], Sgr([30 + b], pen, palette), palette) == Pen(Some(b), Some(palette[b]), false)
  {}

  /** A default or an extended colour forgets the base one, so bold no longer changes it; reset forgets all. */
  lemma OtherColours(n: U16, r: U16, g: U16, b: U16, pen: Pen, palette: Palette)
    ensures Sgr([39], pen, palette) == Pen(None, None, pen.bold)
    ensures Sgr([38, 5, n], pen, palette) == Pen(None, Some(IndexedColor(n % 256, palette)), pen.bold)
    ensures Sgr([38, 2, r, g, b], pen, palette) == Pen(None, Some(Rgb(r % 256, g % 256, b % 256)), pen.bold)
    ensures pen.baseIdx.None? ==> Sgr([1], pen, palette) == pen.(bold := true)
    ensures pen.baseIdx.None? ==> Sgr([22], pen, palette) == pen.(bold := false)
    ensures Sgr([0], pen, palette) == Pen(None, None, false)
    ensures n !in {0, 1, 22, 38, 39, 48} && !(30 <= n <= 37) && !(90 <= n <= 97) ==> Sgr([n], pen, palette) == pen
  {}

  /** One code with the arguments it takes. */
  predicate Whole(code: seq<U16>) {
    || (|code| == 1 && code[0] != 38 && code[0] != 48)
    || (|code| == 3 && (code[0] == 38 || code[0] == 48) && code[1] == 5)
    || (|code| == 5 && (code[0] == 38 || code[0] == 48) && code[1] == 2)
  }

  /** A parameter list is read code by code: what follows a whole code is read as if it came alone. */
  lemma CodeByCode(code: seq<U16>, rest: seq<U16>, pen: Pen, palette: Palette)
    requires Whole(code)
    ensures Sgr(code + rest, pen, palette) == Sgr(rest, Sgr(code, pen, palette), palette)
  {
    assert (code + rest)[|code|..] == rest;
  }

  /** A colour whose arguments are missing takes none, and loses the base one; a background's are lost with it. */
  lemma BrokenColours(rest: seq<U16>, pen: Pen, palette: Palette)
    ensures !(|rest| >= 2 && rest[0] == 5) && !(|rest| >= 4 && rest[0] == 2) ==>
              Sgr([38] + rest, pen, palette) == Sgr(rest, pen.(baseIdx := None), palette)
    ensures rest == [] || (rest[0] != 5 && rest[0] != 2) ==> Sgr([48] + rest, pen, palette) == Sgr(rest, pen, palette)
    ensures |rest| == 1 && rest[0] == 5 ==> Sgr([48] + rest, pen, palette) == pen
    ensures 1 <= |rest| <= 3 && rest[0] == 2 ==> Sgr([48] + rest, pen, palette) == pen
  {
    assert ([38] + rest)[1..] == rest && ([48] + rest)[1..] == rest;
  }

  /** A colour sequence reaches the pen and nothing else; without a number it resets. */
  lemma ColoursReachThePen(e: Emulator, n: U16, palette: Palette)
    requires Valid(e) && e.mode == Ground
    ensures Feed(e, Numbered(n, 'm'), palette) == e.(pen := Sgr([n], e.pen, palette))
    ensures Feed(e, Bare('m'), palette) == e.(pen := Pen(None, None, false))
  {
    NumberedIs(e, n, 'm', palette);
    BareIs(e, 'm', palette);
  }

  const LEVELS: seq<Byte> := [0, 95, 135, 175, 215, 255]

  lemma CubeDigits(r: nat, g: nat, b: nat)
    requires r < 6 && g < 6 && b < 6
    ensures var i := 36 * r + 6 * g + b;
            i < 216 && i / 36 == r && (i / 6) % 6 == g && i % 6 == b
  {
    var i := 36 * r + 6 * g + b;
    assert i / 6 == 6 * r + g;
  }

  lemma Levels(v: nat)
    requires v < 6
    ensures CubeLevel(v) == LEVELS[v]
  {}

  /** The colour table, channel by channel: theme, cube, greys. */
  lemma ColourTable(r: nat, g: nat, b: nat, k: nat, palette: Palette)
    requires r < 6 && g < 6 && b < 6 && k < 24
    ensures 36 * r + 6 * g + b < 216
    ensures IndexedColor(16 + (36 * r + 6 * g + b), palette) == Rgb(LEVELS[r], LEVELS[g], LEVELS[b])
    ensures IndexedColor(232 + k, palette) == Rgb(8 + 10 * k, 8 + 10 * k, 8 + 10 * k)
    ensures k < 16 ==> IndexedColor(k, palette) == palette[k]
  {
    CubeDigits(r, g, b);
    Levels(r);
    Levels(g);
    Levels(b);
  }
}
