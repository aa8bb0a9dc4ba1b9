/**
 The transcript renderer as the source runs it: nested loops that peek ahead and
 consume whole escape sequences. Each loop is proved against the flat machine of
 `Transcript`.
 */
module TranscriptRender {
  import opened Chars
  import opened Options
  import opened Transcript
  import opened TranscriptSpans

  lemma FeedUnfold(e: Emulator, data: seq<char>, i: nat, palette: Palette)
    requires Valid(e) && i < |data|
    ensures Valid(Step(e, data[i], palette))
    ensures Feed(e, data[i..], palette) == Feed(Step(e, data[i], palette), data[i + 1..], palette)
  {
    StepKeepsValid(e, data[i], palette);
    assert data[i..][1..] == data[i + 1..];
  }

  /** One SGR list applied to the pen, code by code. */
  method ApplySgr(params: seq<U16>, pen: Pen, palette: Palette) returns (r: Pen)
    ensures r == Sgr(params, pen, palette)
  {
    r := pen;
    var i := 0;
    while i < |params|
      invariant i >= 0
      invariant Sgr(params, pen, palette) == if i < |params| then Sgr(params[i..], r, palette) else r
      decreases |params| - i
    {
      ghost var before := r;
      ghost var start := i;
      var p := params[i];
      if p == 0 {
        r := DefaultPen;
      } else if p == 1 {
        r := r.(bold := true);
        if r.baseIdx.Some? {
          r := r.(color := Some(palette[r.baseIdx.value + 8]));
        }
      } else if p == 22 {
        r := r.(bold := false);
        if r.baseIdx.Some? {
          r := r.(color := Some(palette[r.baseIdx.value]));
        }
      } else if 30 <= p <= 37 {
        var b := p - 30;
        r := r.(baseIdx := Some(b));
        var idx := if r.bold then b + 8 else b;
        r := r.(color := Some(palette[idx]));
      } else if 90 <= p <= 97 {
        var b := p - 90;
        r := r.(baseIdx := Some(b), color := Some(palette[b + 8]));
      } else if p == 39 {
        r := r.(baseIdx := None, color := None);
      } else if p == 38 {
        r := r.(baseIdx := None);
        if i + 2 < |params| && params[i + 1] == 5 {
          r := r.(color := Some(IndexedColor(params[i + 2] % 256, palette)));
          i := i + 2;
        } else if i + 4 < |params| && params[i + 1] == 2 {
          r := r.(color := Some(Rgb(params[i + 2] % 256, params[i + 3] % 256, params[i + 4] % 256)));
          i := i + 4;
        }
      } else if p == 48 {
        if i + 1 < |params| && params[i + 1] == 5 {
          i := i + 2;
        } else if i + 1 < |params| && params[i + 1] == 2 {
          i := i + 4;
        }
      }
      i := i + 1;
      assert SgrHead(params[start..], before, palette) == (r, i - start);
      if i < |params| {
        assert params[start..][i - start..] == params[i..];
      }
    }
  }

  /** Read a CSI sequence's parameters and final character; `fin` is None when it breaks off. */
  method ReadCsi(data: seq<char>, start: nat, palette: Palette, ghost e: Emulator)
    returns (params: seq<U16>, fin: Option<char>, i: nat)
    requires start <= |data| && Valid(e) && e.mode == Ground
    ensures start <= i <= |data|
    ensures fin.Some? ==> IsFinal(fin.value)
    ensures fin.Some? ==> Valid(Dispatch(e, params, fin.value, palette))
    ensures fin.None? && i < |data| ==> start < i
    ensures var whole := Feed(e.(mode := Csi([], None)), data[start..], palette);
            if fin.Some? then whole == Feed(Dispatch(e, params, fin.value, palette), data[i..], palette)
            else whole.(mode := Ground) == Feed(e, data[i..], palette).(mode := Ground)
  {
    params := [];
    var cur: Option<U16> := None;
    fin := None;
    i := start;
    while i < |data|
      invariant start <= i <= |data|
      invariant fin.None?
      invariant Feed(e.(mode := Csi([], None)), data[start..], palette)
             == Feed(e.(mode := Csi(params, cur)), data[i..], palette)
    {
      var c := data[i];
      FeedUnfold(e.(mode := Csi(params, cur)), data, i, palette);
      i := i + 1;
      if IsDigit(c) {
        cur := Some(PushDigit(cur, c));
      } else if c == ';' || c == ':' {
        params := params + [cur.GetOr(0)];
        cur := None;
      } else if IsSkipped(c) {
      } else if IsFinal(c) {
        fin := Some(c);
        break;
      } else {
        return CloseParam(params, cur), None, i;
      }
    }
    params := CloseParam(params, cur);
    if fin.None? {
      assert data[i..] == [];
    }
  }

  /** Carry out one complete CSI sequence. */
  method ApplyCsi(lines0: seq<Row>, row0: nat, col0: nat, ghost saved: Option<Pos>, pen0: Pen,
                  params0: seq<U16>, fin: char, palette: Palette)
    returns (lines: seq<Row>, row: nat, col: nat, pen: Pen)
    requires row0 < |lines0|
    ensures Emulator(lines, row, col, saved, pen, Ground)
         == Dispatch(Emulator(lines0, row0, col0, saved, pen0, Ground), params0, fin, palette)
  {
    lines, row, col, pen := lines0, row0, col0, pen0;
    var params := params0;
    var n := if FirstOr(params, 1) < 1 then 1 else FirstOr(params, 1);
    if fin == 'm' {
      if params == [] {
        params := [0];
      }
      pen := ApplySgr(params, pen, palette);
    } else if fin == 'K' && FirstOr(params, 0) == 0 {
      lines := lines[row := Truncate(lines[row], col)];
    } else if fin == 'K' && params != [] && params[0] == 2 {
      lines := lines[row := []];
      col := 0;
    } else if fin == 'C' {
      col := col + n;
    } else if fin == 'D' {
      col := Minus(col, n);
    } else if fin == 'G' {
      col := n - 1;
    } else if fin == 'A' {
      row := Minus(row, n);
    } else if fin == 'B' {
      row := Min(row + n, |lines| - 1);
    } else if fin == 'J' && FirstOr(params, 0) == 0 {
      lines := lines[row := Truncate(lines[row], col)];
      lines := Truncate(lines, row + 1);
    }
  }

  /** Skip an OSC string: to BEL, or to a backslash right after an ESC. */
  method SkipOsc(data: seq<char>, start: nat, palette: Palette, ghost e: Emulator) returns (i: nat)
    requires start <= |data| && Valid(e) && e.mode == Ground
    ensures start <= i <= |data|
    ensures Feed(e.(mode := Osc(false)), data[start..], palette).(mode := Ground)
         == Feed(e, data[i..], palette).(mode := Ground)
  {
    i := start;
    var prevEsc := false;
    while i < |data|
      invariant start <= i <= |data|
      invariant Feed(e.(mode := Osc(false)), data[start..], palette)
             == Feed(e.(mode := Osc(prevEsc)), data[i..], palette)
    {
      var c := data[i];
      FeedUnfold(e.(mode := Osc(prevEsc)), data, i, palette);
      i := i + 1;
      if c == BEL || (prevEsc && c == '\\') {
        return;
      }
      prevEsc := c == ESC;
    }
    assert data[i..] == [];
  }

  /** Write one cell, padding the row blank by blank up to the column. */
  method WriteCell(row: Row, col: nat, cell: Cell) returns (line: Row)
    ensures line == PutCell(row, col, cell)
  {
    line := row;
    while |line| < col
      invariant |row| <= |line|
      invariant |line| <= col || line == row
      invariant line == row + Blanks(|line| - |row|)
    {
      line := line + [Cell(' ', None)];
    }
    if col < |line| {
      line := line[col := cell];
    } else {
      line := line + [cell];
    }
  }

  /**
   The renderer. Every recording is read to its end, the cursor row exists at
   every turn of the loop, and the spans are those of the flat machine's rows.
   */
  method Render(data: seq<char>, palette: Palette) returns (spans: seq<Span>)
    ensures spans == SpansOf(RowsOf(data, palette))
  {
    var lines: seq<Row> := [[]];
    var row: nat, col: nat := 0, 0;
    var saved: Option<Pos> := None;
    var pen := DefaultPen;
    var i := 0;
    while i < |data|
      invariant 0 <= i <= |data|
      invariant Valid(Emulator(lines, row, col, saved, pen, Ground))
      invariant Feed(Emulator(lines, row, col, saved, pen, Ground), data[i..], palette).lines
             == Feed(Initial, data, palette).lines
    {
      var ch := data[i];
      ghost var e := Emulator(lines, row, col, saved, pen, Ground);
      FeedUnfold(e, data, i, palette);
      i := i + 1;
      if ch == ESC {
        if i == |data| {
          assert data[i..] == [];
        } else {
          var next := data[i];
          FeedUnfold(e.(mode := Escaped), data, i, palette);
          i := i + 1;
          if next == '[' {
            var params, fin;
            params, fin, i := ReadCsi(data, i, palette, e);
            if fin.Some? {
              lines, row, col, pen := ApplyCsi(lines, row, col, saved, pen, params, fin.value, palette);
            }
          } else if next == ']' {
            i := SkipOsc(data, i, palette, e);
          } else if next == '(' || next == ')' {
            if i < |data| {
              FeedUnfold(e.(mode := Charset), data, i, palette);
              i := i + 1;
            } else {
              assert data[i..] == [];
            }
          } else if next == '7' {
            saved := Some(Pos(row, col));
          } else if next == '8' {
            if saved.Some? {
              row := Min(saved.value.row, |lines| - 1);
              col := saved.value.col;
            }
          }
        }
      } else if ch == '\n' {
        row := row + 1;
        if row == |lines| {
          lines := lines + [[]];
        }
        col := 0;
      } else if ch == '\r' {
        col := 0;
      } else if ch == BACKSPACE {
        col := Minus(col, 1);
      } else if ch == '\t' {
        col := (col / 8 + 1) * 8;
      } else if !IsControl(ch) {
        var line := WriteCell(lines[row], col, Cell(ch, pen.color));
        lines := lines[row := line];
        col := col + 1;
      }
    }
    assert data[i..] == [];
    if lines != [] && lines[|lines| - 1] == [] {
      lines := lines[..|lines| - 1];
    }
    spans := Compress(lines);
  }
}
