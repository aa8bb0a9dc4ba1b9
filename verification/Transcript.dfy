/**
 The transcript emulator as a flat machine: one character in, one state out.

 The source reads a recording with nested loops that peek ahead; here every
 position inside an escape sequence is a `Mode`, so reading is a fold and splits
 at any point of the input. `TranscriptRender` proves that the nested loops
 compute exactly this fold.
 */
module Transcript {
  import opened Chars
  import opened Options

  type Byte = n: nat | n < 256
  type U16 = n: nat | n < 65536
  type BaseIdx = n: nat | n < 8

  datatype Rgb = Rgb(r: Byte, g: Byte, b: Byte)
  type Color = Option<Rgb>
  type Palette = p: seq<Rgb> | |p| == 16 witness seq(16, _ => Rgb(0, 0, 0))

  datatype Cell = Cell(ch: char, color: Color)
  type Row = seq<Cell>
  datatype Pos = Pos(row: nat, col: nat)

  // ----- The pen -----

  datatype Pen = Pen(baseIdx: Option<BaseIdx>, color: Color, bold: bool)

  const DefaultPen := Pen(None, None, false)

  /** The 256-colour table: theme colours, 6x6x6 cube, grey ramp. */
  function IndexedColor(idx: Byte, palette: Palette): Rgb {
    if idx <= 15 then palette[idx]
    else if idx <= 231 then
      var i := idx - 16;
      Rgb(CubeLevel(i / 36), CubeLevel((i / 6) % 6), CubeLevel(i % 6))
    else
      var v := 8 + 10 * (idx - 232);
      Rgb(v, v, v)
  }

  function CubeLevel(v: nat): Byte
    requires v < 6
  {
    if v == 0 then 0 else 55 + 40 * v
  }

  /** What the first SGR code of `params` does to the pen, and how many codes it uses up. */
  function SgrHead(params: seq<U16>, pen: Pen, palette: Palette): (r: (Pen, nat))
    requires params != []
    ensures r.1 >= 1
  {
    var p := params[0];
    if p == 0 then (DefaultPen, 1)
    else if p == 1 then
      (if pen.baseIdx.Some? then pen.(bold := true, color := Some(palette[pen.baseIdx.value + 8]))
       else pen.(bold := true), 1)
    else if p == 22 then
      (if pen.baseIdx.Some? then pen.(bold := false, color := Some(palette[pen.baseIdx.value]))
       else pen.(bold := false), 1)
    else if 30 <= p <= 37 then
      (pen.(baseIdx := Some(p - 30), color := Some(palette[if pen.bold then p - 30 + 8 else p - 30])), 1)
    else if 90 <= p <= 97 then
      (pen.(baseIdx := Some(p - 90), color := Some(palette[p - 90 + 8])), 1)
    else if p == 39 then (pen.(baseIdx := None, color := None), 1)
    else if p == 38 then
      var q := pen.(baseIdx := None);
      if |params| >= 3 && params[1] == 5 then (q.(color := Some(IndexedColor(params[2] % 256, palette))), 3)
      else if |params| >= 5 && params[1] == 2 then
        (q.(color := Some(Rgb(params[2] % 256, params[3] % 256, params[4] % 256))), 5)
      else (q, 1)
    else if p == 48 then
      (pen, if |params| >= 2 && params[1] == 5 then 3 else if |params| >= 2 && params[1] == 2 then 5 else 1)
    else (pen, 1)
  }

  /** The pen after a whole SGR parameter list. */
  function Sgr(params: seq<U16>, pen: Pen, palette: Palette): Pen
    decreases |params|
  {
    if params == [] then pen
    else
      var (q, used) := SgrHead(params, pen, palette);
      if used >= |params| then q else Sgr(params[used..], q, palette)
  }

  // ----- The machine -----

  datatype Mode =
    | Ground
    | Escaped
    | Csi(params: seq<U16>, cur: Option<U16>)
    | Osc(prevEsc: bool)
    | Charset

  datatype Emulator = Emulator(
    lines: seq<Row>,
    row: nat,
    col: nat,
    saved: Option<Pos>,
    pen: Pen,
    mode: Mode)

  const Initial := Emulator([[]], 0, 0, None, DefaultPen, Ground)

  const ESC: char := '\U{001B}'
  const BEL: char := '\U{0007}'
  const BACKSPACE: char := '\U{0008}'

  predicate IsFinal(c: char) {
    0x40 <= c as int <= 0x7E
  }

  predicate IsDigit(c: char) {
    '0' <= c <= '9'
  }

  predicate IsSkipped(c: char) {
    c in "?><= !\"#$%"
  }

  predicate PlainRow(row: Row) {
    forall i :: 0 <= i < |row| ==> !IsControl(row[i].ch)
  }

  predicate PlainGrid(lines: seq<Row>) {
    forall i :: 0 <= i < |lines| ==> PlainRow(lines[i])
  }

  /** What every reachable state keeps: the cursor row exists and no cell holds a control character. */
  predicate Valid(e: Emulator) {
    && e.row < |e.lines|
    && PlainGrid(e.lines)
  }

  function Min(a: nat, b: nat): nat { if a < b then a else b }

  function Minus(a: nat, b: nat): nat { if a < b then 0 else a - b }

  /** `u16` arithmetic saturates. */
  function PushDigit(cur: Option<U16>, c: char): U16
    requires IsDigit(c)
  {
    Min(Min(cur.GetOr(0) * 10, 65535) + (c as int - '0' as int), 65535)
  }

  function Truncate<T>(s: seq<T>, n: nat): seq<T> {
    if n < |s| then s[..n] else s
  }

  function Blanks(n: nat): Row {
    seq(n, _ => Cell(' ', None))
  }

  /** Write one cell at column `col`, padding a short row with default-coloured blanks. */
  function PutCell(row: Row, col: nat, cell: Cell): Row {
    if col < |row| then row[col := cell]
    else row + Blanks(col - |row|) + [cell]
  }

  function FirstOr(params: seq<U16>, default: U16): U16 {
    if params == [] then default else params[0]
  }

  /** The effect of a complete CSI sequence. */
  function Dispatch(e: Emulator, params: seq<U16>, fin: char, palette: Palette): Emulator
    requires e.row < |e.lines|
  {
    var n := if FirstOr(params, 1) < 1 then 1 else FirstOr(params, 1);
    if fin == 'm' then e.(pen := Sgr(if params == [] then [0] else params, e.pen, palette))
    else if fin == 'K' && FirstOr(params, 0) == 0 then
      e.(lines := e.lines[e.row := Truncate(e.lines[e.row], e.col)])
    else if fin == 'K' && FirstOr(params, 0) == 2 then
      e.(lines := e.lines[e.row := []], col := 0)
    else if fin == 'C' then e.(col := e.col + n)
    else if fin == 'D' then e.(col := Minus(e.col, n))
    else if fin == 'G' then e.(col := n - 1)
    else if fin == 'A' then e.(row := Minus(e.row, n))
    else if fin == 'B' then e.(row := Min(e.row + n, |e.lines| - 1))
    else if fin == 'J' && FirstOr(params, 0) == 0 then
      e.(lines := Truncate(e.lines[e.row := Truncate(e.lines[e.row], e.col)], e.row + 1))
    else e
  }

  function CloseParam(params: seq<U16>, cur: Option<U16>): seq<U16> {
    if cur.Some? then params + [cur.value] else params
  }

  function LineFeed(e: Emulator): Emulator {
    e.(row := e.row + 1, col := 0,
       lines := if e.row + 1 == |e.lines| then e.lines + [[]] else e.lines)
  }

  function Restore(e: Emulator): Emulator
    requires e.row < |e.lines|
  {
    if e.saved.None? then e
    else e.(row := Min(e.saved.value.row, |e.lines| - 1), col := e.saved.value.col)
  }

  function StepGround(e: Emulator, c: char): Emulator
    requires e.row < |e.lines|
  {
    if c == ESC then e.(mode := Escaped)
    else if c == '\n' then LineFeed(e)
    else if c == '\r' then e.(col := 0)
    else if c == BACKSPACE then e.(col := Minus(e.col, 1))
    else if c == '\t' then e.(col := (e.col / 8 + 1) * 8)
    else if IsControl(c) then e
    else e.(lines := e.lines[e.row := PutCell(e.lines[e.row], e.col, Cell(c, e.pen.color))],
            col := e.col + 1)
  }

  function StepEscaped(e: Emulator, c: char): Emulator
    requires e.row < |e.lines|
  {
    if c == '[' then e.(mode := Csi([], None))
    else if c == ']' then e.(mode := Osc(false))
    else if c == '(' || c == ')' then e.(mode := Charset)
    else if c == '7' then e.(saved := Some(Pos(e.row, e.col)), mode := Ground)
    else if c == '8' then Restore(e.(mode := Ground))
    else e.(mode := Ground)
  }

  function StepCsi(e: Emulator, c: char, palette: Palette): Emulator
    requires e.row < |e.lines| && e.mode.Csi?
  {
    var Csi(params, cur) := e.mode;
    if IsDigit(c) then e.(mode := Csi(params, Some(PushDigit(cur, c))))
    else if c == ';' || c == ':' then e.(mode := Csi(params + [cur.GetOr(0)], None))
    else if IsSkipped(c) then e
    else if IsFinal(c) then Dispatch(e.(mode := Ground), CloseParam(params, cur), c, palette)
    else e.(mode := Ground)
  }

  /** One character of a recording. */
  function Step(e: Emulator, c: char, palette: Palette): Emulator
    requires e.row < |e.lines|
  {
    match e.mode
    case Ground => StepGround(e, c)
    case Escaped => StepEscaped(e, c)
    case Csi(_, _) => StepCsi(e, c, palette)
    case Osc(prevEsc) =>
      if c == BEL || (prevEsc && c == '\\') then e.(mode := Ground) else e.(mode := Osc(c == ESC))
    case Charset => e.(mode := Ground)
  }

  lemma StepKeepsValid(e: Emulator, c: char, palette: Palette)
    requires Valid(e)
    ensures Valid(Step(e, c, palette))
  {
    if e.mode.Ground? && c != ESC && !IsControl(c) {
      var row := PutCell(e.lines[e.row], e.col, Cell(c, e.pen.color));
      assert PlainRow(e.lines[e.row]);
      assert PlainRow(row);
    } else if e.mode.Csi? {
      assert PlainRow(e.lines[e.row]);
      assert PlainRow(Truncate(e.lines[e.row], e.col));
    }
  }

  /** A whole stretch of a recording. */
  function Feed(e: Emulator, s: seq<char>, palette: Palette): (r: Emulator)
    requires Valid(e)
    ensures Valid(r)
    decreases |s|
  {
    if s == [] then e
    else
      StepKeepsValid(e, s[0], palette);
      Feed(Step(e, s[0], palette), s[1..], palette)
  }

  /** Reading splits anywhere, inside an escape sequence too. */
  lemma {:induction false} FeedConcat(e: Emulator, a: seq<char>, b: seq<char>, palette: Palette)
    requires Valid(e)
    ensures Feed(e, a + b, palette) == Feed(Feed(e, a, palette), b, palette)
    decreases |a|
  {
    if a == [] {
      assert a + b == b;
    } else {
      StepKeepsValid(e, a[0], palette);
      assert (a + b)[1..] == a[1..] + b;
      FeedConcat(Step(e, a[0], palette), a[1..], b, palette);
    }
  }

  lemma FeedOne(e: Emulator, c: char, palette: Palette)
    requires Valid(e)
    ensures Valid(Step(e, c, palette))
    ensures Feed(e, [c], palette) == Step(e, c, palette)
  {
    StepKeepsValid(e, c, palette);
    assert [c][1..] == [];
  }

  lemma FeedTwo(e: Emulator, c: char, d: char, palette: Palette)
    requires Valid(e)
    ensures Valid(Step(e, c, palette))
    ensures Feed(e, [c, d], palette) == Step(Step(e, c, palette), d, palette)
  {
    FeedOne(e, c, palette);
    FeedOne(Step(e, c, palette), d, palette);
    FeedConcat(e, [c], [d], palette);
    assert [c] + [d] == [c, d];
  }

  /** The last row is the uncommitted partial line; an empty one renders nothing. */
  function FinalRows(lines: seq<Row>): seq<Row> {
    if lines != [] && lines[|lines| - 1] == [] then lines[..|lines| - 1] else lines
  }

  /** The rows a recording leaves behind. */
  function RowsOf(data: seq<char>, palette: Palette): (rows: seq<Row>)
    ensures PlainGrid(rows)
  {
    FinalRows(Feed(Initial, data, palette).lines)
  }
}
