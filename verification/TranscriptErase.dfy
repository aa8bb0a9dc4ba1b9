/**
 What a recording can no longer touch: rows above the lowest row the cursor has
 visited, and with them the promise that a self-erasing block leaves no trace.
 */
module TranscriptErase {
  import opened Options
  import opened Transcript

  /** The lowest row index the cursor is on anywhere along the input. */
  function LowestRow(e: Emulator, s: seq<char>, palette: Palette): (m: nat)
    requires Valid(e)
    ensures m <= e.row
    decreases |s|
  {
    if s == [] then e.row
    else
      StepKeepsValid(e, s[0], palette);
      Min(e.row, LowestRow(Step(e, s[0], palette), s[1..], palette))
  }

  lemma StepLeavesRowsAbove(e: Emulator, c: char, palette: Palette, k: nat)
    requires Valid(e) && k <= e.row
    ensures |Step(e, c, palette).lines| > k
    ensures Step(e, c, palette).lines[..k] == e.lines[..k]
  {}

  /** For every input: rows strictly above the lowest row visited are never written, erased or dropped. */
  lemma {:induction false} RowsAboveAreSafe(e: Emulator, s: seq<char>, palette: Palette)
    requires Valid(e)
    ensures var m := LowestRow(e, s, palette);
            |Feed(e, s, palette).lines| > m && Feed(e, s, palette).lines[..m] == e.lines[..m]
    decreases |s|
  {
    if s != [] {
      StepKeepsValid(e, s[0], palette);
      var next, m := Step(e, s[0], palette), LowestRow(e, s, palette);
      StepLeavesRowsAbove(e, s[0], palette, m);
      RowsAboveAreSafe(next, s[1..], palette);
      var n := LowestRow(next, s[1..], palette);
      var end := Feed(next, s[1..], palette);
      assert end.lines[..n][..m] == end.lines[..m];
      assert next.lines[..n][..m] == next.lines[..m];
    }
  }

  // ----- Text that neither climbs nor saves nor restores -----

  /** The parser mode after one character; the grid plays no part. */
  function NextMode(mode: Mode, c: char): Mode {
    match mode
    case Ground => if c == ESC then Escaped else Ground
    case Escaped =>
      if c == '[' then Csi([], None) else if c == ']' then Osc(false)
      else if c == '(' || c == ')' then Charset else Ground
    case Csi(params, cur) =>
      if IsDigit(c) then Csi(params, Some(PushDigit(cur, c)))
      else if c == ';' || c == ':' then Csi(params + [cur.GetOr(0)], None)
      else if IsSkipped(c) then mode
      else Ground
    case Osc(prevEsc) => if c == BEL || (prevEsc && c == '\\') then Ground else Osc(c == ESC)
    case Charset => Ground
  }

  /** A cursor-up, a save or a restore completes with this character. */
  predicate Climbs(mode: Mode, c: char) {
    || (mode.Csi? && c == 'A')
    || (mode.Escaped? && (c == '7' || c == '8'))
  }

  /** `s`, read from `mode`, never moves up, saves or restores, and ends outside any sequence. */
  predicate Calm(mode: Mode, s: seq<char>)
    decreases |s|
  {
    if s == [] then mode.Ground?
    else !Climbs(mode, s[0]) && Calm(NextMode(mode, s[0]), s[1..])
  }

  lemma {:induction false} CalmNeverClimbs(e: Emulator, s: seq<char>, palette: Palette)
    requires Valid(e) && Calm(e.mode, s)
    ensures LowestRow(e, s, palette) == e.row
    ensures Feed(e, s, palette).saved == e.saved
    ensures Feed(e, s, palette).mode == Ground
    decreases |s|
  {
    if s != [] {
      StepKeepsValid(e, s[0], palette);
      CalmNeverClimbs(Step(e, s[0], palette), s[1..], palette);
    }
  }

  // ----- The self-erasing block -----

  const SaveCursor: seq<char> := [ESC, '7']
  const RestoreCursor: seq<char> := [ESC, '8']
  const UpOne: seq<char> := [ESC, '[', '1', 'A']
  const EraseDown: seq<char> := [ESC, '[', 'J']

  function Wipe(): seq<char> { RestoreCursor + UpOne + EraseDown }

  lemma WipeRestores(e: Emulator, palette: Palette)
    requires Valid(e) && e.mode == Ground && e.saved.Some?
    ensures Feed(e, RestoreCursor, palette) == Restore(e)
  {
    FeedTwo(e, ESC, '8', palette);
  }

  lemma WipeClimbs(e: Emulator, palette: Palette)
    requires Valid(e) && e.mode == Ground
    ensures Feed(e, UpOne, palette) == e.(row := Minus(e.row, 1))
  {
    FeedTwo(e, ESC, '[', palette);
    FeedConcat(e, [ESC, '['], ['1', 'A'], palette);
    assert [ESC, '['] + ['1', 'A'] == UpOne;
    FeedTwo(e.(mode := Csi([], None)), '1', 'A', palette);
  }

  lemma WipeErases(e: Emulator, palette: Palette)
    requires Valid(e) && e.mode == Ground && e.col == 0
    ensures Feed(e, EraseDown, palette) == e.(lines := e.lines[..e.row] + [[]])
  {
    FeedTwo(e, ESC, '[', palette);
    FeedConcat(e, [ESC, '['], ['J'], palette);
    assert [ESC, '['] + ['J'] == EraseDown;
    var opened1 := e.(mode := Csi([], None));
    StepKeepsValid(opened1, 'J', palette);
    assert ['J'][1..] == [];
    assert Truncate(e.lines[e.row], 0) == [];
    assert e.lines[e.row := []][..e.row + 1] == e.lines[..e.row] + [[]];
    if e.row + 1 == |e.lines| {
      assert e.lines[e.row := []] == e.lines[..e.row] + [[]];
    }
  }

  /**
   Save, any calm text, restore, up one, erase down: the dump holds the rows
   above the line the block started under, one empty row, and nothing else.
   */
  lemma SelfErasingBlockVanishes(e: Emulator, text: seq<char>, palette: Palette)
    requires Valid(e) && e.mode == Ground && e.col == 0 && e.row >= 1
    requires Calm(Ground, text)
    ensures var r := Feed(e, SaveCursor + text + Wipe(), palette);
            r == Emulator(e.lines[..e.row - 1] + [[]], e.row - 1, 0, Some(Pos(e.row, 0)), r.pen, Ground)
  {
    FeedTwo(e, ESC, '7', palette);
    var saved := e.(saved := Some(Pos(e.row, 0)));
    FeedConcat(e, SaveCursor, text, palette);
    FeedConcat(e, SaveCursor + text, Wipe(), palette);
    CalmNeverClimbs(saved, text, palette);
    RowsAboveAreSafe(saved, text, palette);
    var typed := Feed(saved, text, palette);
    FeedConcat(typed, RestoreCursor + UpOne, EraseDown, palette);
    FeedConcat(typed, RestoreCursor, UpOne, palette);
    WipeRestores(typed, palette);
    WipeClimbs(Restore(typed), palette);
    var up := Feed(typed, RestoreCursor + UpOne, palette);
    WipeErases(up, palette);
    assert typed.lines[..e.row] == e.lines[..e.row];
    assert typed.lines[..e.row][..e.row - 1] == e.lines[..e.row - 1];
  }

  /** So the block leaves the same rows behind whatever it printed. */
  lemma ErasedTextIsForgotten(e: Emulator, a: seq<char>, b: seq<char>, palette: Palette)
    requires Valid(e) && e.mode == Ground && e.col == 0 && e.row >= 1
    requires Calm(Ground, a) && Calm(Ground, b)
    ensures Feed(e, SaveCursor + a + Wipe(), palette).lines == Feed(e, SaveCursor + b + Wipe(), palette).lines
  {
    SelfErasingBlockVanishes(e, a, palette);
    SelfErasingBlockVanishes(e, b, palette);
  }
}
