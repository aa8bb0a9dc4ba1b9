/**
 Spans back to terminal text: a truecolour SGR where the colour changes, CR LF
 for every newline, a reset at the end.
 */
module TranscriptSerialize {
  import opened Options
  import opened Transcript
  import opened TranscriptSpans
  import opened Decimals

  /** The SGR sequence that selects a foreground colour. */
  function ColorSequence(color: Color): seq<char> {
    match color
    case Some(c) =>
      [ESC] + "[38;2;" + Decimal(c.r) + ";" + Decimal(c.g) + ";" + Decimal(c.b) + "m"
    case None => [ESC] + "[39m"
  }

  const ResetSequence: seq<char> := [ESC] + "[0m"

  function CharText(ch: char): seq<char> {
    if ch == '\n' then "\r\n" else [ch]
  }

  function SpanText(text: seq<char>): seq<char> {
    if text == [] then [] else CharText(text[0]) + SpanText(text[1..])
  }

  function ChangeTo(color: Color, current: Color): seq<char> {
    if color == current then [] else ColorSequence(color)
  }

  function SpansText(spans: seq<Span>, current: Color): seq<char> {
    if spans == [] then []
    else ChangeTo(spans[0].color, current) + SpanText(spans[0].text) + SpansText(spans[1..], spans[0].color)
  }

  function AnsiOf(spans: seq<Span>): seq<char> { SpansText(spans, None) + ResetSequence }

  lemma OneMoreSpan(out: seq<char>, spans: seq<Span>, s: nat, current: Color)
    requires s < |spans|
    ensures out + SpansText(spans[s..], current)
         == out + ChangeTo(spans[s].color, current) + SpanText(spans[s].text) + SpansText(spans[s + 1..],
             spans[s].color)
  {
    assert spans[s..][1..] == spans[s + 1..];
  }

  /** The serializer's two nested loops. */
  method ToAnsi(spans: seq<Span>) returns (out: seq<char>)
    ensures out == AnsiOf(spans)
  {
    out := [];
    var current: Color := None;
    for s := 0 to |spans|
      invariant out + SpansText(spans[s..], current) == SpansText(spans, None)
    {
      var span := spans[s];
      OneMoreSpan(out, spans, s, current);
      ghost var before := out;
      if span.color != current {
        out := out + ColorSequence(span.color);
      }
      assert out == before + ChangeTo(span.color, current);
      out := AppendText(span.text, out);
      current := span.color;
    }
    assert out + [] == out;
    out := out + ResetSequence;
  }

  method AppendText(text: seq<char>, before: seq<char>) returns (out: seq<char>)
    ensures out == before + SpanText(text)
  {
    out := before;
    for i := 0 to |text|
      invariant out + SpanText(text[i..]) == before + SpanText(text)
    {
      assert text[i..][1..] == text[i + 1..];
      ghost var was := out;
      if text[i] == '\n' {
        out := out + "\r\n";
      } else {
        out := out + [text[i]];
      }
      assert was + SpanText(text[i..]) == out + SpanText(text[i + 1..]);
    }
    assert text[|text|..] == [];
  }

  // ----- The same text, cell by cell -----

  function CellsText(cells: seq<Cell>, current: Color): seq<char> {
    if cells == [] then []
    else ChangeTo(cells[0].color, current) + CharText(cells[0].ch) + CellsText(cells[1..], cells[0].color)
  }

  function EndColor(cells: seq<Cell>, current: Color): Color {
    if cells == [] then current else cells[|cells| - 1].color
  }

  lemma {:induction false} CellsTextConcat(a: seq<Cell>, b: seq<Cell>, current: Color)
    ensures CellsText(a + b, current) == CellsText(a, current) + CellsText(b, EndColor(a, current))
    decreases |a|
  {
    if a == [] {
      assert a + b == b;
    } else {
      var head := ChangeTo(a[0].color, current) + CharText(a[0].ch);
      var end := EndColor(a, current);
      assert (a + b)[0] == a[0] && (a + b)[1..] == a[1..] + b;
      CellsTextConcat(a[1..], b, a[0].color);
      assert end == EndColor(a[1..], a[0].color);
      Associate(head, CellsText(a[1..], a[0].color), CellsText(b, end));
    }
  }

  lemma Associate<T>(a: seq<T>, b: seq<T>, c: seq<T>)
    ensures a + (b + c) == a + b + c
  {}

  lemma {:induction false} PaintedText(text: seq<char>, color: Color)
    ensures CellsText(Paint(text, color), color) == SpanText(text)
  {
    if text != [] {
      assert Paint(text, color)[1..] == Paint(text[1..], color);
      PaintedText(text[1..], color);
      assert ChangeTo(color, color) == [];
    }
  }

  lemma PaintedSpanText(span: Span, current: Color)
    requires span.text != []
    ensures CellsText(Paint(span.text, span.color), current) == ChangeTo(span.color, current) + SpanText(span.text)
  {
    var cells := Paint(span.text, span.color);
    assert cells[1..] == Paint(span.text[1..], span.color);
    PaintedText(span.text[1..], span.color);
  }

  /** Cutting a stream into spans differently changes nothing in the serialized text. */
  lemma {:induction false} SpansTextIsCellsText(spans: seq<Span>, current: Color)
    requires forall i :: 0 <= i < |spans| ==> spans[i].text != []
    ensures SpansText(spans, current) == CellsText(Flatten(spans), current)
    decreases |spans|
  {
    if spans != [] {
      var first := Paint(spans[0].text, spans[0].color);
      SpansTextIsCellsText(spans[1..], spans[0].color);
      CellsTextConcat(first, Flatten(spans[1..]), current);
      PaintedSpanText(spans[0], current);
    }
  }

  // ----- Line ends -----

  /** Every newline comes right after a carriage return. */
  ghost predicate Returning(s: seq<char>) {
    forall i :: 0 <= i < |s| && s[i] == '\n' ==> i > 0 && s[i - 1] == '\r'
  }

  lemma ReturningConcat(a: seq<char>, b: seq<char>)
    requires Returning(a) && Returning(b)
    ensures Returning(a + b)
  {
    forall i | 0 <= i < |a + b| && (a + b)[i] == '\n'
      ensures i > 0 && (a + b)[i - 1] == '\r'
    {
      if i >= |a| {
        assert b[i - |a|] == '\n';
      }
    }
  }

  lemma {:induction false} DecimalHasNoNewline(n: nat)
    ensures '\n' !in Decimal(n)
  {
    if n >= 10 {
      DecimalHasNoNewline(n / 10);
    }
  }

  lemma ColorHasNoNewline(color: Color)
    ensures '\n' !in ColorSequence(color)
  {
    if color.Some? {
      DecimalHasNoNewline(color.value.r);
      DecimalHasNoNewline(color.value.g);
      DecimalHasNoNewline(color.value.b);
    }
  }

  lemma {:induction false} TextReturns(text: seq<char>)
    ensures Returning(SpanText(text))
  {
    if text != [] {
      TextReturns(text[1..]);
      ReturningConcat(CharText(text[0]), SpanText(text[1..]));
    }
  }

  lemma {:induction false} SpansReturn(spans: seq<Span>, current: Color)
    ensures Returning(SpansText(spans, current))
    decreases |spans|
  {
    if spans != [] {
      ColorHasNoNewline(spans[0].color);
      TextReturns(spans[0].text);
      SpansReturn(spans[1..], spans[0].color);
      var change := ChangeTo(spans[0].color, current);
      ReturningConcat(change, SpanText(spans[0].text));
      ReturningConcat(change + SpanText(spans[0].text), SpansText(spans[1..], spans[0].color));
    }
  }

  /** In serialized text a line never starts where the one before ended. */
  lemma NewlinesReturn(spans: seq<Span>)
    ensures Returning(AnsiOf(spans))
  {
    SpansReturn(spans, None);
    ReturningConcat(SpansText(spans, None), ResetSequence);
  }
}
