/**
 Same-colour spans: the run-length form in which rows leave the emulator.

 `Rle` is the canonical encoding of a coloured character stream; it loses
 nothing (`FlattenRle`) and is the only canonical encoding (`CanonicalIsUnique`).
 */
module TranscriptSpans {
  import opened Options
  import opened Transcript

  datatype Span = Span(text: seq<char>, color: Color)

  /** A row as it appears in span text: its cells, then a newline in the last cell's colour. */
  function RowCells(row: Row): seq<Cell> {
    row + [Cell('\n', RowEndColor(row))]
  }

  function RowEndColor(row: Row): Color {
    if row == [] then None else row[|row| - 1].color
  }

  function GridCells(rows: seq<Row>): seq<Cell> {
    if rows == [] then [] else RowCells(rows[0]) + GridCells(rows[1..])
  }

  function Paint(text: seq<char>, color: Color): (cells: seq<Cell>)
    ensures |cells| == |text|
  {
    seq(|text|, i requires 0 <= i < |text| => Cell(text[i], color))
  }

  /** The coloured characters a span list stands for. */
  function Flatten(spans: seq<Span>): seq<Cell> {
    if spans == [] then [] else Paint(spans[0].text, spans[0].color) + Flatten(spans[1..])
  }

  /** No empty span, no two neighbours of one colour. */
  predicate Canonical(spans: seq<Span>) {
    && (forall i :: 0 <= i < |spans| ==> spans[i].text != [])
    && (forall i :: 0 < i < |spans| ==> spans[i].color != spans[i - 1].color)
  }

  /** Append text to a span list, merging it into a last span of the same colour. */
  function PushText(spans: seq<Span>, text: seq<char>, color: Color): seq<Span> {
    if text == [] then spans
    else if spans != [] && spans[|spans| - 1].color == color then
      spans[..|spans| - 1] + [Span(spans[|spans| - 1].text + text, color)]
    else spans + [Span(text, color)]
  }

  /** The canonical encoding, one character at a time. */
  function Rle(cells: seq<Cell>): seq<Span> {
    if cells == [] then []
    else
      var last := cells[|cells| - 1];
      PushText(Rle(cells[..|cells| - 1]), [last.ch], last.color)
  }

  function SpansOf(rows: seq<Row>): seq<Span> { Rle(GridCells(rows)) }

  // ----- Rle loses nothing and is canonical -----

  lemma {:induction false} FlattenAppend(a: seq<Span>, b: seq<Span>)
    ensures Flatten(a + b) == Flatten(a) + Flatten(b)
  {
    if a == [] {
      assert a + b == b;
    } else {
      assert (a + b)[1..] == a[1..] + b;
      FlattenAppend(a[1..], b);
    }
  }

  lemma FlattenPush(spans: seq<Span>, text: seq<char>, color: Color)
    ensures Flatten(PushText(spans, text, color)) == Flatten(spans) + Paint(text, color)
  {
    if text != [] {
      if spans != [] && spans[|spans| - 1].color == color {
        var front, last := spans[..|spans| - 1], spans[|spans| - 1];
        assert spans == front + [last];
        FlattenAppend(front, [last]);
        FlattenAppend(front, [Span(last.text + text, color)]);
        assert Paint(last.text + text, color) == Paint(last.text, color) + Paint(text, color);
      } else {
        FlattenAppend(spans, [Span(text, color)]);
      }
    }
  }

  lemma {:induction false} FlattenRle(cells: seq<Cell>)
    ensures Flatten(Rle(cells)) == cells
    ensures Canonical(Rle(cells))
  {
    if cells != [] {
      var front, last := cells[..|cells| - 1], cells[|cells| - 1];
      FlattenRle(front);
      FlattenPush(Rle(front), [last.ch], last.color);
      assert Paint([last.ch], last.color) == [last];
      assert cells == front + [last];
    }
  }

  lemma FirstSpanReads(a: seq<Span>, i: nat)
    ensures a != [] && i < |a[0].text| ==>
              i < |Flatten(a)| && Flatten(a)[i] == Cell(a[0].text[i], a[0].color)
  {}

  /** The colour changes right after the first span. */
  lemma ColorAfterFirstSpan(b: seq<Span>)
    requires Canonical(b) && b != []
    ensures Flatten(b)[|b[0].text|..] == Flatten(b[1..])
    ensures |b[0].text| < |Flatten(b)| ==> Flatten(b)[|b[0].text|].color != b[0].color
  {
    var n := |b[0].text|;
    assert Flatten(b)[n..] == Flatten(b[1..]);
    if |b| > 1 {
      FirstSpanReads(b[1..], 0);
      assert Flatten(b)[n] == Flatten(b)[n..][0];
    }
  }

  lemma FirstSpanIsLongest(a: seq<Span>, b: seq<Span>)
    requires Canonical(a) && Canonical(b) && a != [] && b != []
    requires Flatten(a) == Flatten(b)
    ensures |a[0].text| <= |b[0].text|
  {
    FirstSpanReads(a, 0);
    FirstSpanReads(b, 0);
    FirstSpanReads(a, |b[0].text|);
    ColorAfterFirstSpan(b);
  }

  /** Two canonical span lists that read the same are the same list. */
  lemma {:induction false} CanonicalIsUnique(a: seq<Span>, b: seq<Span>)
    requires Canonical(a) && Canonical(b)
    requires Flatten(a) == Flatten(b)
    ensures a == b
    decreases |a|
  {
    if a != [] && b != [] {
      FirstSpanIsLongest(a, b);
      FirstSpanIsLongest(b, a);
      FirstSpanReads(a, 0);
      FirstSpanReads(b, 0);
      forall i | 0 <= i < |a[0].text|
        ensures a[0].text[i] == b[0].text[i]
      {
        FirstSpanReads(a, i);
        FirstSpanReads(b, i);
      }
      assert a[0].text == b[0].text;
      ColorAfterFirstSpan(a);
      ColorAfterFirstSpan(b);
      CanonicalIsUnique(a[1..], b[1..]);
      assert a == [a[0]] + a[1..] && b == [b[0]] + b[1..];
    }
  }

  // ----- The source's run-based compression -----

  lemma PaintSnoc(text: seq<char>, c: char, color: Color)
    ensures Paint(text + [c], color) == Paint(text, color) + [Cell(c, color)]
  {}

  lemma PushSnoc(spans: seq<Span>, text: seq<char>, c: char, color: Color)
    ensures PushText(PushText(spans, text, color), [c], color) == PushText(spans, text + [c], color)
  {
    if text == [] {
      assert text + [c] == [c];
    } else if spans != [] && spans[|spans| - 1].color == color {
      var front, last := spans[..|spans| - 1], spans[|spans| - 1];
      assert (front + [Span(last.text + text, color)])[..|front|] == front;
      assert last.text + text + [c] == last.text + (text + [c]);
    } else {
      assert (spans + [Span(text, color)])[..|spans|] == spans;
    }
  }

  lemma RleSnoc(cells: seq<Cell>, c: char, color: Color)
    ensures Rle(cells + [Cell(c, color)]) == PushText(Rle(cells), [c], color)
  {
    assert (cells + [Cell(c, color)])[..|cells|] == cells;
  }

  /** Pushing a run at once is pushing its characters one by one. */
  lemma {:induction false} RleAppendRun(cells: seq<Cell>, text: seq<char>, color: Color)
    ensures Rle(cells + Paint(text, color)) == PushText(Rle(cells), text, color)
  {
    if text == [] {
      assert cells + Paint(text, color) == cells;
    } else {
      var front, last := text[..|text| - 1], text[|text| - 1];
      assert text == front + [last];
      RleAppendRun(cells, front, color);
      PaintSnoc(front, last, color);
      assert cells + Paint(text, color) == cells + Paint(front, color) + [Cell(last, color)];
      RleSnoc(cells + Paint(front, color), last, color);
      PushSnoc(Rle(cells), front, last, color);
    }
  }

  lemma {:induction false} GridCellsAppend(rows: seq<Row>, row: Row)
    ensures GridCells(rows + [row]) == GridCells(rows) + RowCells(row)
  {
    if rows == [] {
      assert GridCells([row]) == RowCells(row) + GridCells([]);
    } else {
      assert (rows + [row])[1..] == rows[1..] + [row];
      GridCellsAppend(rows[1..], row);
    }
  }

  /** Append text to the span list, as the source's `push` closure does. */
  method Push(text: seq<char>, color: Color, spans: seq<Span>) returns (r: seq<Span>)
    ensures r == PushText(spans, text, color)
  {
    if |text| == 0 {
      return spans;
    }
    if |spans| > 0 && spans[|spans| - 1].color == color {
      var last := spans[|spans| - 1];
      return spans[..|spans| - 1] + [last.(text := last.text + text)];
    }
    r := spans + [Span(text, color)];
  }

  /** `run`, all in colour `color`, is what has been read of the row and not pushed yet. */
  ghost predicate Unpushed(flushed: seq<Cell>, run: seq<char>, color: Color, read: seq<Cell>) {
    flushed + Paint(run, color) == read
  }

  lemma UnpushedFlush(flushed: seq<Cell>, run: seq<char>, color: Color, read: seq<Cell>)
    requires Unpushed(flushed, run, color, read)
    ensures Rle(read) == PushText(Rle(flushed), run, color)
    ensures Unpushed(read, [], color, read)
  {
    RleAppendRun(flushed, run, color);
    assert Paint([], color) == [];
  }

  lemma UnpushedSnoc(flushed: seq<Cell>, run: seq<char>, color: Color, read: seq<Cell>, cell: Cell)
    requires Unpushed(flushed, run, color, read)
    requires run == [] || color == cell.color
    ensures Unpushed(flushed, run + [cell.ch], cell.color, read + [cell])
  {
    PaintSnoc(run, cell.ch, cell.color);
    assert Paint(run, color) == Paint(run, cell.color);
    assert flushed + (Paint(run, color) + [cell]) == read + [cell];
  }

  method FinishRow(before: seq<Span>, run: seq<char>, runColor: Color, ghost flushed: seq<Cell>, ghost read: seq<Cell>)
    returns (spans: seq<Span>)
    requires before == Rle(flushed) && Unpushed(flushed, run, runColor, read)
    ensures spans == Rle(read + [Cell('\n', runColor)])
  {
    ghost var all := read + [Cell('\n', runColor)];
    UnpushedSnoc(flushed, run, runColor, read, Cell('\n', runColor));
    UnpushedFlush(flushed, run + ['\n'], runColor, all);
    spans := Push(run + ['\n'], runColor, before);
  }

  lemma ReadOneMore(done: seq<Cell>, row: Row, c: nat)
    requires c < |row|
    ensures done + row[..c + 1] == done + row[..c] + [row[c]]
    ensures RowEndColor(row[..c + 1]) == row[c].color
  {}

  lemma ReadAll(done: seq<Cell>, row: Row)
    ensures done + row[..|row|] + [Cell('\n', RowEndColor(row[..|row|]))] == done + RowCells(row)
  {
    assert row[..|row|] == row;
  }

  /** Compress one row: cut a run wherever the colour changes, then end it with a newline. */
  method CompressRow(row: Row, before: seq<Span>, ghost done: seq<Cell>) returns (spans: seq<Span>)
    requires before == Rle(done)
    ensures spans == Rle(done + RowCells(row))
  {
    spans := before;
    var run: seq<char> := [];
    var runColor: Color := None;
    ghost var flushed, read := done, done;
    assert Unpushed(done, [], None, done);
    assert done + row[..0] == done;
    for c := 0 to |row|
      invariant spans == Rle(flushed)
      invariant Unpushed(flushed, run, runColor, read)
      invariant read == done + row[..c]
      invariant runColor == RowEndColor(row[..c])
    {
      var cell := row[c];
      ReadOneMore(done, row, c);
      if cell.color != runColor && |run| > 0 {
        UnpushedFlush(flushed, run, runColor, read);
        spans := Push(run, runColor, spans);
        flushed := read;
        run := [];
      }
      UnpushedSnoc(flushed, run, runColor, read, cell);
      runColor := cell.color;
      run := run + [cell.ch];
      read := read + [cell];
    }
    ReadAll(done, row);
    spans := FinishRow(spans, run, runColor, flushed, read);
  }

  /** The span list of a finished grid. */
  method Compress(lines: seq<Row>) returns (spans: seq<Span>)
    ensures spans == SpansOf(lines)
  {
    spans := [];
    for r := 0 to |lines|
      invariant spans == SpansOf(lines[..r])
    {
      GridCellsAppend(lines[..r], lines[r]);
      assert lines[..r + 1] == lines[..r] + [lines[r]];
      spans := CompressRow(lines[r], spans, GridCells(lines[..r]));
    }
    assert lines[..|lines|] == lines;
  }

  /** A row in one colour is one span, its newline included. */
  lemma UniformRowIsOneSpan(text: seq<char>, color: Color)
    requires text != []
    ensures SpansOf([Paint(text, color)]) == [Span(text + "\n", color)]
  {
    var row := Paint(text, color);
    assert [row][1..] == [];
    assert GridCells([row]) == RowCells(row);
    assert RowCells(row) == [] + Paint(text + "\n", color);
    RleAppendRun([], text + "\n", color);
  }
}
