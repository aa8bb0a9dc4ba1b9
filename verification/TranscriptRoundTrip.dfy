/**
 Serializing a rendered transcript and rendering it again gives it back, row by
 row, character by character, colour by colour.
 */
module TranscriptRoundTrip {
  import opened Chars
  import opened Options
  import opened Transcript
  import opened TranscriptSpans
  import opened TranscriptSerialize
  import opened Decimals

  /** Decimal parsing undoes decimal printing for every `u16`. */
  lemma {:induction false} ParseDecimal(e: Emulator, params: seq<U16>, n: U16, palette: Palette)
    requires Valid(e)
    ensures Feed(e.(mode := Csi(params, None)), Decimal(n), palette) == e.(mode := Csi(params, Some(n)))
    decreases n
  {
    var start := e.(mode := Csi(params, None));
    if n < 10 {
      FeedOne(start, Digit(n), palette);
    } else {
      ParseDecimal(e, params, n / 10, palette);
      FeedConcat(start, Decimal(n / 10), [Digit(n % 10)], palette);
      FeedOne(e.(mode := Csi(params, Some(n / 10))), Digit(n % 10), palette);
    }
  }

  /** Parameters, each closed by its semicolon. */
  function Params(ns: seq<U16>): seq<char> {
    if ns == [] then [] else Params(ns[..|ns| - 1]) + (Decimal(ns[|ns| - 1]) + ";")
  }

  lemma {:induction false} ParseParams(e: Emulator, ns: seq<U16>, palette: Palette)
    requires Valid(e)
    ensures Feed(e.(mode := Csi([], None)), Params(ns), palette) == e.(mode := Csi(ns, None))
  {
    if ns != [] {
      var front, n := ns[..|ns| - 1], ns[|ns| - 1];
      ParseParams(e, front, palette);
      FeedConcat(e.(mode := Csi([], None)), Params(front), Decimal(n) + ";", palette);
      ParseDecimal(e, front, n, palette);
      FeedConcat(e.(mode := Csi(front, None)), Decimal(n), ";", palette);
      FeedOne(e.(mode := Csi(front, Some(n))), ';', palette);
      assert front + [n] == ns;
    }
  }

  /** A whole CSI sequence: parameters, a last one, the final character. */
  lemma FeedCsi(e: Emulator, ns: seq<U16>, n: U16, fin: char, palette: Palette)
    requires Valid(e) && e.mode == Ground && IsFinal(fin)
    ensures Feed(e, [ESC, '['] + (Params(ns) + (Decimal(n) + [fin])), palette) == Dispatch(e, ns + [n], fin, palette)
  {
    FeedTwo(e, ESC, '[', palette);
    FeedConcat(e, [ESC, '['], Params(ns) + (Decimal(n) + [fin]), palette);
    ParseParams(e, ns, palette);
    FeedConcat(e.(mode := Csi([], None)), Params(ns), Decimal(n) + [fin], palette);
    ParseDecimal(e, ns, n, palette);
    FeedConcat(e.(mode := Csi(ns, None)), Decimal(n), [fin], palette);
    FeedOne(e.(mode := Csi(ns, Some(n))), fin, palette);
  }

  lemma SelectsTruecolor(r: U16, g: U16, b: U16, pen: Pen, palette: Palette)
    ensures Sgr([38, 2, r, g, b], pen, palette)
         == Pen(None, Some(Rgb(r % 256, g % 256, b % 256)), pen.bold)
  {}

  lemma ParamsSnoc(ns: seq<U16>, n: U16)
    ensures Params(ns + [n]) == Params(ns) + (Decimal(n) + ";")
  {
    assert (ns + [n])[..|ns|] == ns;
  }

  lemma TruecolorParams(c: Rgb)
    ensures Params([38, 2, c.r, c.g]) == "38;2;" + (Decimal(c.r) + ";") + (Decimal(c.g) + ";")
  {
    ParamsSnoc([], 38);
    ParamsSnoc([38], 2);
    ParamsSnoc([38, 2], c.r);
    ParamsSnoc([38, 2, c.r], c.g);
    assert Decimal(38) == "38" && Decimal(2) == "2";
    assert [] + [38] == [38] && [38] + [2] == [38, 2];
    assert [38, 2] + [c.r] == [38, 2, c.r] && [38, 2, c.r] + [c.g] == [38, 2, c.r, c.g];
    assert Params([]) == [];
    assert Params([38]) == "38;";
    assert Params([38, 2]) == "38;2;";
  }

  lemma Reassociate(r: seq<char>, g: seq<char>, b: seq<char>)
    ensures [ESC] + "[38;2;" + r + ";" + g + ";" + b + "m"
         == [ESC, '['] + ("38;2;" + (r + ";") + (g + ";") + (b + ['m']))
  {
    assert [ESC] + "[38;2;" == [ESC, '['] + "38;2;";
    var head := [ESC, '['] + "38;2;";
    assert head + r + ";" == head + (r + ";");
    assert head + (r + ";") + g + ";" == head + (r + ";") + (g + ";");
    assert head + (r + ";") + (g + ";") + b + "m" == head + (r + ";") + (g + ";") + (b + ['m']);
    Concat4([ESC, '['], "38;2;", r + ";", g + ";", b + ['m']);
  }

  lemma Concat4(a: seq<char>, b: seq<char>, c: seq<char>, d: seq<char>, e: seq<char>)
    ensures a + b + c + d + e == a + (b + c + d + e)
  {}

  lemma TruecolorShape(c: Rgb)
    ensures ColorSequence(Some(c)) == [ESC, '['] + (Params([38, 2, c.r, c.g]) + (Decimal(c.b) + ['m']))
  {
    TruecolorParams(c);
    Reassociate(Decimal(c.r), Decimal(c.g), Decimal(c.b));
  }

  lemma FeedSome(e: Emulator, c: Rgb, palette: Palette)
    requires Valid(e) && e.mode == Ground
    ensures Feed(e, ColorSequence(Some(c)), palette) == e.(pen := Pen(None, Some(c), e.pen.bold))
  {
    TruecolorShape(c);
    FeedCsi(e, [38, 2, c.r, c.g], c.b, 'm', palette);
    assert [38, 2, c.r, c.g] + [c.b] == [38, 2, c.r, c.g, c.b];
    SelectsTruecolor(c.r, c.g, c.b, e.pen, palette);
  }

  lemma FeedDefault(e: Emulator, palette: Palette)
    requires Valid(e) && e.mode == Ground
    ensures Feed(e, ColorSequence(None), palette) == e.(pen := Pen(None, None, e.pen.bold))
  {
    assert Decimal(39) == "39";
    assert ColorSequence(None) == [ESC, '['] + (Params([]) + (Decimal(39) + ['m']));
    FeedCsi(e, [], 39, 'm', palette);
  }

  /** A colour-change sequence sets the pen's colour and touches nothing else. */
  lemma FeedChange(e: Emulator, color: Color, palette: Palette)
    requires Valid(e) && e.mode == Ground
    ensures var r := Feed(e, ChangeTo(color, e.pen.color), palette);
            r == e.(pen := r.pen) && r.pen.color == color
  {
    if color != e.pen.color {
      if color.Some? {
        FeedSome(e, color.value, palette);
      } else {
        FeedDefault(e, palette);
      }
    }
  }

  lemma FeedReset(e: Emulator, palette: Palette)
    requires Valid(e) && e.mode == Ground
    ensures Feed(e, ResetSequence, palette) == e.(pen := DefaultPen)
  {
    assert Decimal(0) == "0";
    assert ResetSequence == [ESC, '['] + (Params([]) + (Decimal(0) + ['m']));
    FeedCsi(e, [], 0, 'm', palette);
  }

  /** The emulator after `done` whole rows and the start `part` of the next one. */
  ghost predicate Writing(e: Emulator, done: seq<Row>, part: Row, color: Color) {
    && Valid(e)
    && e.lines == done + [part]
    && e.row == |done|
    && e.col == |part|
    && e.mode == Ground
    && e.pen.color == color
  }

  lemma WriteOneCell(e: Emulator, done: seq<Row>, part: Row, color: Color, cell: Cell, palette: Palette)
    requires Writing(e, done, part, color) && !IsControl(cell.ch)
    ensures Writing(Feed(e, ChangeTo(cell.color, color) + CharText(cell.ch), palette),
                    done, part + [cell], cell.color)
  {
    FeedChange(e, cell.color, palette);
    var painted := Feed(e, ChangeTo(cell.color, color), palette);
    FeedConcat(e, ChangeTo(cell.color, color), CharText(cell.ch), palette);
    FeedOne(painted, cell.ch, palette);
    assert e.lines[e.row] == part;
    assert Blanks(0) == [];
    assert part + Blanks(0) + [cell] == part + [cell];
    assert e.lines[e.row := part + [cell]] == done + [part + [cell]];
  }

  lemma CellsSplit(part: Row, cells: Row, color: Color)
    requires cells != []
    ensures part + [cells[0]] + cells[1..] == part + cells
    ensures EndColor(cells, color) == EndColor(cells[1..], cells[0].color)
    ensures PlainRow(cells) ==> PlainRow(cells[1..]) && !IsControl(cells[0].ch)
  {}

  lemma {:induction false} WriteCells(
      e: Emulator, done: seq<Row>, part: Row, color: Color, cells: Row, palette: Palette)
    requires Writing(e, done, part, color) && PlainRow(cells)
    ensures Writing(Feed(e, CellsText(cells, color), palette), done, part + cells, EndColor(cells, color))
    decreases |cells|
  {
    if cells == [] {
      assert part + cells == part;
    } else {
      CellsSplit(part, cells, color);
      var head := ChangeTo(cells[0].color, color) + CharText(cells[0].ch);
      WriteOneCell(e, done, part, color, cells[0], palette);
      FeedConcat(e, head, CellsText(cells[1..], cells[0].color), palette);
      WriteCells(Feed(e, head, palette), done, part + [cells[0]], cells[0].color, cells[1..], palette);
    }
  }

  /** One whole row: its cells, then the newline in the row's own end colour. */
  lemma WriteRow(e: Emulator, done: seq<Row>, color: Color, row: Row, palette: Palette)
    requires Writing(e, done, [], color) && PlainRow(row)
    ensures Writing(Feed(e, CellsText(RowCells(row), color), palette), done + [row], [], RowEndColor(row))
  {
    var newline := [Cell('\n', RowEndColor(row))];
    CellsTextConcat(row, newline, color);
    WriteCells(e, done, [], color, row, palette);
    assert [] + row == row;
    var mid := Feed(e, CellsText(row, color), palette);
    FeedConcat(e, CellsText(row, color), CellsText(newline, EndColor(row, color)), palette);
    assert newline[1..] == [];
    assert CellsText([], RowEndColor(row)) == [];
    assert CellsText(newline, EndColor(row, color)) == ChangeTo(RowEndColor(row), mid.pen.color) + "\r\n";
    FeedConcat(mid, ChangeTo(RowEndColor(row), mid.pen.color), "\r\n", palette);
    FeedChange(mid, RowEndColor(row), palette);
    var painted := Feed(mid, ChangeTo(RowEndColor(row), mid.pen.color), palette);
    FeedTwo(painted, '\r', '\n', palette);
    assert "\r\n" == ['\r', '\n'];
  }

  lemma GridSplit(done: seq<Row>, rows: seq<Row>, color: Color)
    requires rows != [] && PlainGrid(rows)
    ensures done + [rows[0]] + rows[1..] == done + rows
    ensures PlainRow(rows[0]) && PlainGrid(rows[1..])
    ensures EndColor(RowCells(rows[0]), color) == RowEndColor(rows[0])
  {}

  lemma {:induction false} WriteGrid(e: Emulator, done: seq<Row>, color: Color, rows: seq<Row>, palette: Palette)
    returns (end: Color)
    requires Writing(e, done, [], color) && PlainGrid(rows)
    ensures Writing(Feed(e, CellsText(GridCells(rows), color), palette), done + rows, [], end)
    decreases |rows|
  {
    if rows == [] {
      assert done + rows == done;
      end := color;
    } else {
      GridSplit(done, rows, color);
      var first, rest := RowCells(rows[0]), GridCells(rows[1..]);
      WriteRow(e, done, color, rows[0], palette);
      CellsTextConcat(first, rest, color);
      FeedConcat(e, CellsText(first, color), CellsText(rest, RowEndColor(rows[0])), palette);
      end := WriteGrid(Feed(e, CellsText(first, color), palette), done + [rows[0]], RowEndColor(rows[0]), rows[1..],
          palette);
    }
  }

  /**
   Round trip on grids: any rows without control characters, written out as
   terminal text and rendered again, are the same rows.
   */
  lemma RowsRoundTrip(rows: seq<Row>, palette: Palette)
    requires PlainGrid(rows)
    ensures RowsOf(AnsiOf(SpansOf(rows)), palette) == rows
  {
    FlattenRle(GridCells(rows));
    SpansTextIsCellsText(SpansOf(rows), None);
    assert Initial.lines == [] + [[]];
    assert Writing(Initial, [], [], None);
    var end := WriteGrid(Initial, [], None, rows, palette);
    var written := Feed(Initial, CellsText(GridCells(rows), None), palette);
    FeedConcat(Initial, CellsText(GridCells(rows), None), ResetSequence, palette);
    FeedReset(written, palette);
    assert [] + rows + [[]] == rows + [[]];
    assert (rows + [[]])[..|rows|] == rows;
  }

  /** Whoever reads the serialized text is left outside any sequence, with no colour and no bold. */
  lemma SerializedTextResets(rows: seq<Row>, palette: Palette)
    requires PlainGrid(rows)
    ensures var r := Feed(Initial, AnsiOf(SpansOf(rows)), palette);
            r.mode == Ground && r.pen == Pen(None, None, false)
  {
    FlattenRle(GridCells(rows));
    SpansTextIsCellsText(SpansOf(rows), None);
    assert Initial.lines == [] + [[]];
    assert Writing(Initial, [], [], None);
    var end := WriteGrid(Initial, [], None, rows, palette);
    var written := Feed(Initial, CellsText(GridCells(rows), None), palette);
    FeedConcat(Initial, CellsText(GridCells(rows), None), ResetSequence, palette);
    FeedReset(written, palette);
  }

  /** Rendering is a fixed point of serialize-then-render, for every recording whatsoever. */
  lemma RenderRoundTrip(data: seq<char>, palette: Palette)
    ensures var spans := SpansOf(RowsOf(data, palette));
            SpansOf(RowsOf(AnsiOf(spans), palette)) == spans
  {
    RowsRoundTrip(RowsOf(data, palette), palette);
  }

  /** The theme plays no part in reading serialized text back. */
  lemma SerializedTextIsThemeFree(rows: seq<Row>, p: Palette, q: Palette)
    requires PlainGrid(rows)
    ensures RowsOf(AnsiOf(SpansOf(rows)), p) == RowsOf(AnsiOf(SpansOf(rows)), q)
  {
    RowsRoundTrip(rows, p);
    RowsRoundTrip(rows, q);
  }

  /** Different grids serialize to different text. */
  lemma SerializeIsInjective(a: seq<Row>, b: seq<Row>, palette: Palette)
    requires PlainGrid(a) && PlainGrid(b)
    requires AnsiOf(SpansOf(a)) == AnsiOf(SpansOf(b))
    ensures a == b
  {
    RowsRoundTrip(a, palette);
    RowsRoundTrip(b, palette);
  }
}
