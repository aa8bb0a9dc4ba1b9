/**
 Picking a history suggestion: the bytes it types, and when they turn the line the
 mirror holds into exactly the picked command.
 */
module Completion {
  import opened Chars
  import opened Options
  import opened CommandText
  import opened Utf8
  import opened LineMirror

  // ----- The bytes -----

  /** Every occurrence of `pat`, left to right, replaced by `with`. */
  function Replace(s: seq<char>, pat: seq<char>, with: seq<char>): seq<char>
    requires pat != []
    decreases |s|
  {
    if s == [] then []
    else if pat <= s then with + Replace(s[|pat|..], pat, with)
    else [s[0]] + Replace(s[1..], pat, with)
  }

  const ESC: char := '\U{001B}'
  const PasteStart: seq<char> := [ESC] + "[200~"
  const PasteEnd: seq<char> := [ESC] + "[201~"

  /** Line ends become bare CR; inside a bracket, markers in the text are dropped. */
  function WrapPaste(text: seq<char>, bracketed: bool): seq<Byte> {
    var normalized := Replace(Replace(text, "\r\n", "\r"), "\n", "\r");
    if !bracketed then EncodeAll(normalized)
    else
      var clean := Replace(Replace(normalized, PasteStart, []), PasteEnd, []);
      EncodeAll(PasteStart) + EncodeAll(clean) + EncodeAll(PasteEnd)
  }

  function Erases(n: nat, backspace: Byte): seq<Byte> { seq(n, _ => backspace) }

  /** What is left to type: the rest of the command when it extends the line, else all of it. */
  function ToType(typed: seq<char>, command: seq<char>): seq<char> {
    if typed <= command then command[|typed|..] else command
  }

  function CompletionBytes(
      typed: seq<char>, command: seq<char>, backspace: Byte, bracketed: bool, run: bool): seq<Byte> {
    (if typed <= command then [] else Erases(|typed|, backspace))
    + WrapPaste(ToType(typed, command), bracketed)
    + (if run then [0x0D] else [])
  }

  // ----- Replacing in text that a stored command can hold -----

  lemma {:induction false} ReplaceAbsent(s: seq<char>, pat: seq<char>, with: seq<char>)
    requires pat != [] && pat[0] !in s
    ensures Replace(s, pat, with) == s
    decreases |s|
  {
    if s != [] {
      assert s[0] in s;
      ReplaceAbsent(s[1..], pat, with);
    }
  }

  /** Newlines as the carriage returns they are sent as. */
  function Returns(s: seq<char>): seq<char> {
    if s == [] then [] else [if s[0] == '\n' then '\r' else s[0]] + Returns(s[1..])
  }

  lemma {:induction false} ReplaceNewlines(s: seq<char>)
    ensures Replace(s, "\n", "\r") == Returns(s)
    decreases |s|
  {
    if s != [] {
      ReplaceNewlines(s[1..]);
      assert "\n" <= s <==> s[0] == '\n';
    }
  }

  /** What the text of a stored command is made of: no control characters but tab and newline. */
  predicate Textual(s: seq<char>) {
    forall i :: 0 <= i < |s| ==> !IsControl(s[i]) || s[i] == '\t' || s[i] == '\n'
  }

  lemma {:induction false} ReturnsHasNoEsc(s: seq<char>)
    requires Textual(s)
    ensures ESC !in Returns(s)
  {
    if s != [] {
      ReturnsHasNoEsc(s[1..]);
    }
  }

  lemma WrapTextual(text: seq<char>, bracketed: bool)
    requires Textual(text)
    ensures WrapPaste(text, bracketed)
         == if bracketed then EncodeAll(PasteStart) + EncodeAll(Returns(text)) + EncodeAll(PasteEnd)
            else EncodeAll(Returns(text))
  {
    assert '\r' !in text by {
      assert IsControl('\r');
    }
    ReplaceAbsent(text, "\r\n", "\r");
    ReplaceNewlines(text);
    ReturnsHasNoEsc(text);
    ReplaceAbsent(Returns(text), PasteStart, []);
    ReplaceAbsent(Returns(text), PasteEnd, []);
  }

  // ----- Typing at the end of a line the mirror vouches for -----

  /** The caret at the end of `line`, nothing half-read. */
  predicate AtEnd(m: Mirror, line: seq<char>, tainted: bool, inPaste: bool) {
    && m.chars == line && m.cursor == |line| && m.tainted == tainted
    && m.scan == Ground && m.inPaste == inPaste && m.pending == []
  }

  lemma InsertAtEnd(m: Mirror, c: char)
    requires m.cursor == |m.chars| < MAX_LINE
    ensures Insert(m, c) == m.(chars := m.chars + [c], cursor := m.cursor + 1)
  {
    assert m.chars[..m.cursor] + [c] + m.chars[m.cursor..] == m.chars + [c];
  }

  /** A scalar beyond ASCII arrives whole and is inserted, in a paste or out of one. */
  lemma FeedWide(m: Mirror, line: seq<char>, tainted: bool, inPaste: bool, c: char)
    requires AtEnd(m, line, tainted, inPaste) && |line| < MAX_LINE && c as int >= 0x80
    ensures Valid(m)
    ensures AtEnd(Feed(m, Encode(c)).0, line + [c], tainted, inPaste) && Feed(m, Encode(c)).1 == []
  {
    FeedScalar(m, c);
    InsertAtEnd(m, c);
  }

  /** One character of a stored command typed on a bare line: what it does to the line and to the taint. */
  lemma TypeBare(m: Mirror, line: seq<char>, tainted: bool, c: char)
    requires AtEnd(m, line, tainted, false) && |line| < MAX_LINE
    requires !IsControl(c)
    ensures Valid(m)
    ensures AtEnd(Feed(m, Encode(c)).0, line + [c], tainted, false) && Feed(m, Encode(c)).1 == []
  {
    if c as int >= 0x80 {
      FeedWide(m, line, tainted, false, c);
    } else {
      FeedOne(m, c as int);
      InsertAtEnd(m, c);
      assert Encode(c) == [c as int];
      assert (c as int) as char == c;
    }
  }

  /** In a paste every character lands, a CR as the newline it stands for. */
  lemma TypePasted(m: Mirror, line: seq<char>, c: char)
    requires AtEnd(m, line, false, true) && |line| < MAX_LINE
    requires !IsControl(c) || c == '\t' || c == '\n'
    ensures Valid(m)
    ensures AtEnd(Feed(m, EncodeAll(Returns([c]))).0, line + [c], false, true)
    ensures Feed(m, EncodeAll(Returns([c]))).1 == []
  {
    var sent := if c == '\n' then '\r' else c;
    assert [c][1..] == [];
    assert Returns([c]) == [sent];
    assert [sent][1..] == [];
    assert EncodeAll([sent]) == Encode(sent);
    if c as int >= 0x80 {
      FeedWide(m, line, false, true, c);
    } else {
      FeedOne(m, sent as int);
      InsertAtEnd(m, c);
      assert Encode(sent) == [sent as int];
      assert (c as int) as char == c;
    }
  }

  lemma EncodeReturnsSplit(s: seq<char>)
    requires s != []
    ensures EncodeAll(Returns(s)) == EncodeAll(Returns([s[0]])) + EncodeAll(Returns(s[1..]))
  {
    var sent := if s[0] == '\n' then '\r' else s[0];
    assert [s[0]][1..] == [];
    assert Returns([s[0]]) == [sent];
    assert [sent][1..] == [];
    assert EncodeAll([sent]) == Encode(sent);
    assert Returns(s)[1..] == Returns(s[1..]);
  }

  lemma OneThenRest(line: seq<char>, s: seq<char>)
    requires s != []
    ensures line + [s[0]] + s[1..] == line + s && |line + [s[0]]| + |s[1..]| == |line| + |s|
  {}

  /** A pasted text lands character for character. */
  lemma {:induction false} PasteText(m: Mirror, line: seq<char>, s: seq<char>)
    requires AtEnd(m, line, false, true) && |line| + |s| <= MAX_LINE && Textual(s)
    ensures Valid(m)
    ensures AtEnd(Feed(m, EncodeAll(Returns(s))).0, line + s, false, true)
    ensures Feed(m, EncodeAll(Returns(s))).1 == []
    decreases |s|
  {
    if s == [] {
      assert line + s == line;
    } else {
      var head, rest := EncodeAll(Returns([s[0]])), EncodeAll(Returns(s[1..]));
      OneThenRest(line, s);
      TypePasted(m, line, s[0]);
      PasteText(Feed(m, head).0, line + [s[0]], s[1..]);
      FeedConcat(m, head, rest);
      EncodeReturnsSplit(s);
    }
  }

  lemma TypeBareSent(m: Mirror, line: seq<char>, tainted: bool, c: char)
    requires AtEnd(m, line, tainted, false) && |line| < MAX_LINE && !IsControl(c)
    ensures Valid(m)
    ensures AtEnd(Feed(m, EncodeAll(Returns([c]))).0, line + [c], tainted, false)
    ensures Feed(m, EncodeAll(Returns([c]))).1 == []
  {
    TypeBare(m, line, tainted, c);
    assert [c][1..] == [];
    assert IsControl('\n');
    assert Returns([c]) == [c];
    assert EncodeAll([c]) == Encode(c);
  }

  /** A bare text without tab or newline lands character for character. */
  lemma {:induction false} TypeText(m: Mirror, line: seq<char>, tainted: bool, s: seq<char>)
    requires AtEnd(m, line, tainted, false) && |line| + |s| <= MAX_LINE
    requires forall i :: 0 <= i < |s| ==> !IsControl(s[i])
    ensures Valid(m)
    ensures AtEnd(Feed(m, EncodeAll(Returns(s))).0, line + s, tainted, false)
    ensures Feed(m, EncodeAll(Returns(s))).1 == []
    decreases |s|
  {
    if s == [] {
      assert line + s == line;
    } else {
      var head, rest := EncodeAll(Returns([s[0]])), EncodeAll(Returns(s[1..]));
      OneThenRest(line, s);
      TypeBareSent(m, line, tainted, s[0]);
      TypeText(Feed(m, head).0, line + [s[0]], tainted, s[1..]);
      FeedConcat(m, head, rest);
      EncodeReturnsSplit(s);
    }
  }

  /** Erasing: one backspace per typed character empties the line. */
  lemma {:induction false} EraseLine(m: Mirror, line: seq<char>, backspace: Byte)
    requires AtEnd(m, line, false, false) && (backspace == 0x7F || backspace == 0x08)
    ensures Valid(m)
    ensures AtEnd(Feed(m, Erases(|line|, backspace)).0, [], false, false) && Feed(m, Erases(|line|, backspace)).1 == []
    decreases |line|
  {
    if line != [] {
      var front := line[..|line| - 1];
      assert Erases(|line|, backspace)[1..] == Erases(|front|, backspace);
      StepKeepsValid(m, backspace);
      assert m.chars[..|line| - 1] + m.chars[|line|..] == front;
      EraseLine(Step(m, backspace).0, front, backspace);
    }
  }

  // ----- Where bare tabs and newlines lead -----

  /** What a bare text has done to the line so far: nothing lost, completed by the shell, or submitted early. */
  datatype Harm = Harm(tab: bool, newlines: nat)

  function HarmOf(s: seq<char>): Harm {
    if s == [] then Harm(false, 0)
    else
      var h := HarmOf(s[..|s| - 1]);
      if s[|s| - 1] == '\n' then Harm(false, h.newlines + 1)
      else if s[|s| - 1] == '\t' then h.(tab := true)
      else h
  }

  lemma {:induction false} HarmlessIsPlain(s: seq<char>)
    ensures (HarmOf(s).tab || HarmOf(s).newlines > 0) <==> '\t' in s || '\n' in s
  {
    if s != [] {
      HarmlessIsPlain(s[..|s| - 1]);
      assert s == s[..|s| - 1] + [s[|s| - 1]];
    }
  }

  lemma {:induction false} EncodeReturnsSnoc(s: seq<char>, c: char)
    ensures EncodeAll(Returns(s + [c])) == EncodeAll(Returns(s)) + EncodeAll(Returns([c]))
    decreases |s|
  {
    if s == [] {
      assert s + [c] == [c];
    } else {
      EncodeReturnsSplit(s + [c]);
      assert (s + [c])[1..] == s[1..] + [c];
      EncodeReturnsSnoc(s[1..], c);
      EncodeReturnsSplit(s);
      assert EncodeAll(Returns([s[0]])) + (EncodeAll(Returns(s[1..])) + EncodeAll(Returns([c])))
          == EncodeAll(Returns([s[0]])) + EncodeAll(Returns(s[1..])) + EncodeAll(Returns([c]));
    }
  }

  /**
   The caret stays at the end of some line, tainted exactly when a tab was typed on it; one submission per
   newline.
   */
  ghost predicate Harmed(m: Mirror, h: Harm, lines: seq<Submitted>, room: nat) {
    && AtEnd(m, m.chars, h.tab, false)
    && |lines| == h.newlines
    && |m.chars| <= room
  }

  lemma {:induction false} BareTextHarms(m: Mirror, line: seq<char>, s: seq<char>)
    requires AtEnd(m, line, false, false) && |line| + |s| <= MAX_LINE && Textual(s)
    ensures Valid(m)
    ensures Harmed(Feed(m, EncodeAll(Returns(s))).0, HarmOf(s), Feed(m, EncodeAll(Returns(s))).1, |line| + |s|)
    decreases |s|
  {
    if s != [] {
      var front, c := s[..|s| - 1], s[|s| - 1];
      assert s == front + [c];
      BareTextHarms(m, line, front);
      EncodeReturnsSnoc(front, c);
      FeedConcat(m, EncodeAll(Returns(front)), EncodeAll(Returns([c])));
      OneMoreBare(Feed(m, EncodeAll(Returns(front))).0, HarmOf(front), c);
    }
  }

  lemma OneMoreBare(m: Mirror, h: Harm, c: char)
    requires AtEnd(m, m.chars, h.tab, false) && |m.chars| < MAX_LINE
    requires !IsControl(c) || c == '\t' || c == '\n'
    ensures Valid(m)
    ensures var (n, lines) := Feed(m, EncodeAll(Returns([c])));
            && |n.chars| <= |m.chars| + 1
            && (if c == '\n' then AtEnd(n, n.chars, false, false) && |lines| == 1
                else if c == '\t' then AtEnd(n, n.chars, true, false) && lines == []
                else AtEnd(n, n.chars, h.tab, false) && lines == [])
  {
    var sent := if c == '\n' then '\r' else c;
    assert [c][1..] == [];
    assert Returns([c]) == [sent];
    assert [sent][1..] == [];
    assert EncodeAll([sent]) == Encode(sent);
    if c == '\n' || c == '\t' {
      assert Encode(sent) == [sent as int];
      FeedOne(m, sent as int);
    } else {
      TypeBare(m, m.chars, h.tab, c);
    }
  }

  // ----- The bracket -----

  lemma EncodeMarkers()
    ensures EncodeAll(PasteStart) == [0x1B, 91, 50, 48, 48, 126]
    ensures EncodeAll(PasteEnd) == [0x1B, 91, 50, 48, 49, 126]
  {
    EncodeSix(ESC, '[', '2', '0', '0', '~');
    EncodeSix(ESC, '[', '2', '0', '1', '~');
    assert PasteStart == [ESC, '[', '2', '0', '0', '~'];
    assert PasteEnd == [ESC, '[', '2', '0', '1', '~'];
  }

  lemma EncodeSix(a: char, b: char, c: char, d: char, e: char, f: char)
    requires a as int < 0x80 && b as int < 0x80 && c as int < 0x80 && d as int < 0x80 && e as int < 0x80
             && f as int < 0x80
    ensures EncodeAll([a, b, c, d, e, f]) == [a as int, b as int, c as int, d as int, e as int, f as int]
  {
    assert [a, b, c, d, e, f][1..] == [b, c, d, e, f];
    assert [b, c, d, e, f][1..] == [c, d, e, f];
    assert [c, d, e, f][1..] == [d, e, f];
    assert [d, e, f][1..] == [e, f];
    assert [e, f][1..] == [f];
    assert [f][1..] == [];
    assert EncodeAll([f]) == [f as int];
    assert EncodeAll([e, f]) == [e as int, f as int];
    assert EncodeAll([d, e, f]) == [d as int, e as int, f as int];
    assert EncodeAll([c, d, e, f]) == [c as int, d as int, e as int, f as int];
    assert EncodeAll([b, c, d, e, f]) == [b as int, c as int, d as int, e as int, f as int];
  }

  lemma {:induction false} FeedParams(m: Mirror, bytes: seq<Byte>)
    requires Valid(m) && m.scan == Csi && |m.params| + |bytes| <= 16
    requires forall i :: 0 <= i < |bytes| ==> 0x20 <= bytes[i] <= 0x3F
    ensures Feed(m, bytes) == (m.(params := m.params + bytes), [])
    decreases |bytes|
  {
    if bytes == [] {
      assert m.params + bytes == m.params;
    } else {
      StepKeepsValid(m, bytes[0]);
      var none: seq<Submitted> := [];
      assert none + none == none;
      assert Step(m, bytes[0]) == (m.(params := m.params + [bytes[0]]), none);
      FeedParams(m.(params := m.params + [bytes[0]]), bytes[1..]);
      assert m.params + [bytes[0]] + bytes[1..] == m.params + bytes;
    }
  }

  /** ESC, bracket, three digits, tilde: one CSI sequence. */
  lemma FeedMarker(m: Mirror, digits: seq<Byte>)
    requires Valid(m) && m.scan == Ground && m.pending == [] && |digits| == 3
    requires forall i :: 0 <= i < |digits| ==> 0x20 <= digits[i] <= 0x3F
    ensures Feed(m, [0x1B, 91] + (digits + [126])) == (FinishCsi(m.(scan := Csi, params := digits), 126), [])
  {
    var esc := m.(scan := Esc);
    var csi := m.(scan := Csi, params := []);
    var full := m.(scan := Csi, params := digits);
    FeedConcat(m, [0x1B, 91], digits + [126]);
    FeedConcat(m, [0x1B], [91]);
    assert [0x1B] + [91] == [0x1B, 91];
    FeedOne(m, 0x1B);
    FeedOne(esc, 91);
    FeedConcat(csi, digits, [126]);
    FeedParams(csi, digits);
    assert [] + digits == digits;
    FeedOne(full, 126);
  }

  lemma OpensPaste(m: Mirror, line: seq<char>)
    requires AtEnd(m, line, false, false)
    ensures Valid(m)
    ensures AtEnd(Feed(m, EncodeAll(PasteStart)).0, line, false, true) && Feed(m, EncodeAll(PasteStart)).1 == []
  {
    EncodeMarkers();
    assert [0x1B, 91, 50, 48, 48, 126] == [0x1B, 91] + (PASTE_ON + [126]);
    FeedMarker(m, PASTE_ON);
  }

  lemma ClosesPaste(m: Mirror, line: seq<char>)
    requires AtEnd(m, line, false, true)
    ensures Valid(m)
    ensures AtEnd(Feed(m, EncodeAll(PasteEnd)).0, line, false, false) && Feed(m, EncodeAll(PasteEnd)).1 == []
  {
    EncodeMarkers();
    assert [0x1B, 91, 50, 48, 49, 126] == [0x1B, 91] + (PASTE_OFF + [126]);
    FeedMarker(m, PASTE_OFF);
  }

  lemma BracketedLands(m: Mirror, line: seq<char>, s: seq<char>)
    requires AtEnd(m, line, false, false) && |line| + |s| <= MAX_LINE && Textual(s)
    ensures Valid(m)
    ensures AtEnd(Feed(m, WrapPaste(s, true)).0, line + s, false, false) && Feed(m, WrapPaste(s, true)).1 == []
  {
    WrapTextual(s, true);
    var a, b, c := EncodeAll(PasteStart), EncodeAll(Returns(s)), EncodeAll(PasteEnd);
    FeedConcat(m, a + b, c);
    FeedConcat(m, a, b);
    OpensPaste(m, line);
    PasteText(Feed(m, a).0, line, s);
    ClosesPaste(Feed(m, a + b).0, line + s);
  }

  // ----- The pick -----

  /** The mirror ends up holding exactly the command; a run submits exactly it, once, and nothing else. */
  predicate Lands(after: Mirror, lines: seq<Submitted>, command: seq<char>, run: bool) {
    if run then lines == [Submitted(command, false)]
    else lines == [] && Composing(after) == Some(command)
  }

  /** The line before the text goes in: as it is when the command extends it, else erased. */
  function Base(typed: seq<char>, command: seq<char>): seq<char> { if typed <= command then typed else [] }

  lemma BaseIsReached(m: Mirror, typed: seq<char>, command: seq<char>, backspace: Byte)
    requires AtEnd(m, typed, false, false) && (backspace == 0x7F || backspace == 0x08)
    ensures Valid(m)
    ensures var erase := if typed <= command then [] else Erases(|typed|, backspace);
            AtEnd(Feed(m, erase).0, Base(typed, command), false, false) && Feed(m, erase).1 == []
    ensures Base(typed, command) + ToType(typed, command) == command
  {
    if !(typed <= command) {
      EraseLine(m, typed, backspace);
    }
  }

  lemma TextualTail(s: seq<char>, n: nat)
    requires Textual(s) && n <= |s|
    ensures Textual(s[n..])
  {}

  /** The typing part of a pick, before any run. */
  lemma TextLands(m: Mirror, base: seq<char>, s: seq<char>, bracketed: bool)
    requires AtEnd(m, base, false, false) && |base| + |s| <= MAX_LINE && Textual(s)
    ensures Valid(m)
    ensures var (n, lines) := Feed(m, WrapPaste(s, bracketed));
            if bracketed || ('\t' !in s && '\n' !in s) then AtEnd(n, base + s, false, false) && lines == []
            else AtEnd(n, n.chars, HarmOf(s).tab, false) && |lines| == HarmOf(s).newlines && (n.tainted || lines != [])
  {
    if bracketed {
      BracketedLands(m, base, s);
    } else {
      WrapTextual(s, false);
      HarmlessIsPlain(s);
      if '\t' !in s && '\n' !in s {
        TypeText(m, base, false, s);
      } else {
        BareTextHarms(m, base, s);
      }
    }
  }

  lemma RunSubmits(m: Mirror)
    requires Valid(m) && AtEnd(m, m.chars, m.tainted, false)
    ensures Feed(m, [0x0D]).1 == [Submitted(m.chars, m.tainted)]
  {
    FeedOne(m, 0x0D);
  }

  /** The line and the submissions after a pick's text, before any run. */
  lemma PickTypes(m: Mirror, typed: seq<char>, command: seq<char>, backspace: Byte, bracketed: bool)
    requires AtEnd(m, typed, false, false) && (backspace == 0x7F || backspace == 0x08)
    requires Textual(command) && |command| <= MAX_LINE
    ensures Valid(m)
    ensures var text := ToType(typed, command);
            var (n, lines) := Feed(m, CompletionBytes(typed, command, backspace, bracketed, false));
            if bracketed || ('\t' !in text && '\n' !in text) then AtEnd(n, command, false, false) && lines == []
            else AtEnd(n, n.chars, HarmOf(text).tab, false) && |lines| == HarmOf(text).newlines
                 && (n.tainted || lines != [])
  {
    var text := ToType(typed, command);
    var erase := if typed <= command then [] else Erases(|typed|, backspace);
    if typed <= command {
      TextualTail(command, |typed|);
    }
    BaseIsReached(m, typed, command, backspace);
    TextLands(Feed(m, erase).0, Base(typed, command), text, bracketed);
    FeedConcat(m, erase, WrapPaste(text, bracketed));
    var bytes := erase + WrapPaste(text, bracketed);
    assert bytes + [] == bytes;
  }

  lemma RunIsAppended(typed: seq<char>, command: seq<char>, backspace: Byte, bracketed: bool)
    ensures CompletionBytes(typed, command, backspace, bracketed, true)
         == CompletionBytes(typed, command, backspace, bracketed, false) + [0x0D]
  {}

  lemma RunLands(lines: seq<Submitted>, filled: Mirror, command: seq<char>)
    ensures lines + [Submitted(filled.chars, filled.tainted)] == [Submitted(command, false)]
       <==> lines == [] && filled.chars == command && !filled.tainted
  {
    var all := lines + [Submitted(filled.chars, filled.tainted)];
    assert |all| == |lines| + 1 && all[|lines|] == Submitted(filled.chars, filled.tainted);
  }

  /**
   On a line with no escape sequence half typed, the pick lands exactly when the text is safe to send bare, or
   bracketed.
   */
  lemma PickLandsOnGround(m: Mirror, typed: seq<char>, command: seq<char>, backspace: Byte, bracketed: bool, run: bool)
    requires Valid(m) && Composing(m) == Some(typed) && m.scan == Ground
    requires backspace == 0x7F || backspace == 0x08
    requires Textual(command) && |command| <= MAX_LINE
    ensures var (after, lines) := Feed(m, CompletionBytes(typed, command, backspace, bracketed, run));
            var text := ToType(typed, command);
            Lands(after, lines, command, run) <==> bracketed || ('\t' !in text && '\n' !in text)
  {
    var bytes := CompletionBytes(typed, command, backspace, bracketed, false);
    PickTypes(m, typed, command, backspace, bracketed);
    var filled := Feed(m, bytes).0;
    if run {
      RunIsAppended(typed, command, backspace, bracketed);
      FeedConcat(m, bytes, [0x0D]);
      RunSubmits(filled);
      RunLands(Feed(m, bytes).1, filled, command);
    }
  }

  /** A stored command is short enough for the mirror. */
  lemma {:induction false} ByteLengthBounds(s: seq<char>)
    ensures |s| <= ByteLength(s) == |EncodeAll(s)|
  {
    if s != [] {
      ByteLengthBounds(s[1..]);
    }
  }

  lemma StorableFits(command: seq<char>)
    requires Storable(command)
    ensures |command| <= MAX_LINE
  {
    ByteLengthBounds(command);
  }

  // ----- A taint is not shed on the way -----

  const INTERRUPT: Byte := 0x03

  lemma TaintStep(m: Mirror, b: Byte)
    requires Valid(m) && m.tainted && b != INTERRUPT
    ensures var (n, lines) := Step(m, b);
            if lines == [] then n.tainted else |lines| == 1 && lines[0].tainted
  {}

  /** Short of an interrupt, what is tainted stays so until it is submitted, and is submitted so. */
  lemma {:induction false} TaintStays(m: Mirror, bytes: seq<Byte>)
    requires Valid(m) && m.tainted && INTERRUPT !in bytes
    ensures var (n, lines) := Feed(m, bytes);
            if lines == [] then n.tainted else lines[0].tainted
    decreases |bytes|
  {
    if bytes != [] {
      TaintStep(m, bytes[0]);
      StepKeepsValid(m, bytes[0]);
      var (n, lines) := Step(m, bytes[0]);
      if lines == [] {
        TaintStays(n, bytes[1..]);
        assert lines + Feed(n, bytes[1..]).1 == Feed(n, bytes[1..]).1;
      }
    }
  }

  lemma TaintedNeverLands(m: Mirror, bytes: seq<Byte>, command: seq<char>, run: bool)
    requires Valid(m) && bytes != [] && INTERRUPT !in bytes
    requires Step(m, bytes[0]).0.tainted && Step(m, bytes[0]).1 == []
    ensures !Lands(Feed(m, bytes).0, Feed(m, bytes).1, command, run)
  {
    StepKeepsValid(m, bytes[0]);
    TaintStays(Step(m, bytes[0]).0, bytes[1..]);
    var rest := Feed(Step(m, bytes[0]).0, bytes[1..]).1;
    assert Step(m, bytes[0]).1 + rest == rest;
  }

  lemma {:induction false} NoInterruptInText(s: seq<char>)
    requires Textual(s)
    ensures INTERRUPT !in EncodeAll(Returns(s))
  {
    if s != [] {
      EncodeReturnsSplit(s);
      NoInterruptInText(s[1..]);
      var sent := if s[0] == '\n' then '\r' else s[0];
      assert [s[0]][1..] == [] && Returns([s[0]]) == [sent] && [sent][1..] == [];
      assert EncodeAll([sent]) == Encode(sent);
      assert IsControl('\U{0003}');
      if sent as int >= 0x80 {
        DecodeEncode(sent);
      }
    }
  }

  lemma NoInterruptInPaste(text: seq<char>, bracketed: bool)
    requires Textual(text)
    ensures INTERRUPT !in WrapPaste(text, bracketed)
  {
    WrapTextual(text, bracketed);
    NoInterruptInText(text);
    EncodeMarkers();
  }

  lemma NoInterruptInPick(typed: seq<char>, command: seq<char>, backspace: Byte, bracketed: bool, run: bool)
    requires Textual(command) && (backspace == 0x7F || backspace == 0x08)
    ensures INTERRUPT !in CompletionBytes(typed, command, backspace, bracketed, run)
  {
    NoInterruptInPaste(ToType(typed, command), bracketed);
  }

  // ----- A line grows by no more than what is typed -----

  /** How many characters begin in these bytes. */
  function Leads(bytes: seq<Byte>): nat {
    if bytes == [] then 0 else (if IsContinuation(bytes[0]) then 0 else 1) + Leads(bytes[1..])
  }

  lemma {:induction false} LeadsConcat(a: seq<Byte>, b: seq<Byte>)
    ensures Leads(a + b) == Leads(a) + Leads(b)
  {
    if a == [] {
      assert a + b == b;
    } else {
      assert (a + b)[1..] == a[1..] + b;
      LeadsConcat(a[1..], b);
    }
  }

  lemma {:induction false} TailHasNoLeads(b: seq<Byte>)
    requires forall i :: 0 <= i < |b| ==> IsContinuation(b[i])
    ensures Leads(b) == 0
  {
    if b != [] {
      TailHasNoLeads(b[1..]);
    }
  }

  lemma {:induction false} LeadsOfText(s: seq<char>)
    ensures Leads(EncodeAll(s)) == |s|
  {
    if s != [] {
      var b := Encode(s[0]);
      LeadsConcat(b, EncodeAll(s[1..]));
      LeadsOfText(s[1..]);
      LeadOfEncode(s[0]);
    }
  }

  lemma LeadOfEncode(c: char)
    ensures Encode(c) != [] && !IsContinuation(Encode(c)[0]) && Leads(Encode(c)) == 1
  {
    var b := Encode(c);
    if c as int >= 0x80 {
      DecodeEncode(c);
    }
    assert forall i :: 0 <= i < |b[1..]| ==> IsContinuation(b[1..][i]);
    TailHasNoLeads(b[1..]);
  }

  lemma {:induction false} ReturnsKeepLength(s: seq<char>)
    ensures |Returns(s)| == |s|
  {
    if s != [] {
      ReturnsKeepLength(s[1..]);
    }
  }

  /** The line, and a scalar half read. */
  function Extent(m: Mirror): nat { |m.chars| + if m.pending != [] then 1 else 0 }

  lemma GrowText(m: Mirror, b: Byte)
    requires Valid(m) && m.pending == []
    ensures Extent(TextByte(m, b)) <= |m.chars| + if IsContinuation(b) then 0 else 1
  {}

  lemma SwapKeepsLength(m: Mirror)
    requires Valid(m)
    ensures |Transpose(m).chars| == |m.chars| && Transpose(m).pending == m.pending
  {}

  lemma ControlsShrink(m: Mirror, b: Byte)
    requires Valid(m) && m.pending == [] && (b < 0x20 || b == 0x7F)
    ensures var (n, lines) := Command(m, b);
            && |n.chars| <= |m.chars| && n.pending == []
            && forall i :: 0 <= i < |lines| ==> lines[i].text == m.chars
  {
    if b == 0x14 {
      SwapKeepsLength(m);
    }
  }

  lemma GrowCommand(m: Mirror, b: Byte)
    requires Valid(m) && m.pending == []
    ensures var (n, lines) := Command(m, b);
            && Extent(n) <= |m.chars| + (if IsContinuation(b) then 0 else 1)
            && forall i :: 0 <= i < |lines| ==> |lines[i].text| <= |m.chars|
  {
    if b < 0x20 || b == 0x7F {
      ControlsShrink(m, b);
    } else {
      GrowText(m, b);
    }
  }

  lemma GrowOnGround(m: Mirror, b: Byte)
    requires Valid(m)
    ensures var (n, lines) := OnGround(m, b);
            && Extent(n) <= Extent(m) + (if IsContinuation(b) then 0 else 1)
            && forall i :: 0 <= i < |lines| ==> |lines[i].text| <= Extent(m)
  {
    if m.pending == [] || !IsContinuation(b) {
      var clean := m.(pending := []);
      GrowCommand(clean, b);
      GrowText(clean, b);
    }
  }

  lemma GrowStep(m: Mirror, b: Byte)
    requires Valid(m)
    ensures var (n, lines) := Step(m, b);
            && Extent(n) <= Extent(m) + (if m.scan.Ground? && !IsContinuation(b) then 1 else 0)
            && forall i :: 0 <= i < |lines| ==> |lines[i].text| <= Extent(m)
  {
    if m.scan.Ground? {
      GrowOnGround(m, b);
    }
  }

  lemma {:induction false} Grows(m: Mirror, bytes: seq<Byte>)
    requires Valid(m)
    ensures var (n, lines) := Feed(m, bytes);
            && Extent(n) <= Extent(m) + Leads(bytes)
            && forall i :: 0 <= i < |lines| ==> |lines[i].text| <= Extent(m) + Leads(bytes)
    decreases |bytes|
  {
    if bytes != [] {
      GrowStep(m, bytes[0]);
      StepKeepsValid(m, bytes[0]);
      Grows(Step(m, bytes[0]).0, bytes[1..]);
    }
  }

  /** Every line, submitted or not, is shorter than `n`. */
  predicate AllShorter(m: Mirror, lines: seq<Submitted>, n: nat) {
    |m.chars| < n && forall i :: 0 <= i < |lines| ==> |lines[i].text| < n
  }

  lemma EatenBytesFallShort(m: Mirror, bytes: seq<Byte>)
    requires Valid(m) && !m.scan.Ground? && m.pending == [] && bytes != [] && !IsContinuation(bytes[0])
    ensures AllShorter(Feed(m, bytes).0, Feed(m, bytes).1, |m.chars| + Leads(bytes))
  {
    GrowStep(m, bytes[0]);
    StepKeepsValid(m, bytes[0]);
    var n := Step(m, bytes[0]).0;
    Grows(n, bytes[1..]);
    assert Step(m, bytes[0]).1 == [];
    assert Feed(m, bytes).0 == Feed(n, bytes[1..]).0;
    assert Feed(m, bytes).1 == Feed(n, bytes[1..]).1;
  }

  /** A bare text whose first byte goes to an escape sequence leaves every line short of the command. */
  lemma EatenTextFallsShort(m: Mirror, text: seq<char>)
    requires Valid(m) && !m.scan.Ground? && m.pending == [] && text != []
    ensures AllShorter(Feed(m, EncodeAll(Returns(text))).0, Feed(m, EncodeAll(Returns(text))).1, |m.chars| + |text|)
  {
    var sent := Returns(text);
    ReturnsKeepLength(text);
    LeadsOfText(sent);
    LeadOfEncode(sent[0]);
    assert EncodeAll(sent)[0] == Encode(sent[0])[0];
    EatenBytesFallShort(m, EncodeAll(sent));
  }

  // ----- An escape sequence half typed -----

  /** When a pick lands on a line on which an escape sequence has been begun. */
  predicate LandsMidEscape(scan: Scan, typed: seq<char>, command: seq<char>, bracketed: bool, run: bool) {
    if bracketed then scan.Esc? && typed <= command else !run && typed == command
  }

  /** The pick's first byte makes the line one the mirror no longer vouches for. */
  lemma FirstByteTaints(m: Mirror, b: Byte)
    requires Valid(m) && !m.scan.Ground? && (b == 0x7F || b == 0x08 || b == 0x0D || (b == 0x1B && !m.scan.Esc?))
    ensures Step(m, b).0.tainted && Step(m, b).1 == []
  {}

  lemma ErasingMidEscape(m: Mirror, typed: seq<char>, command: seq<char>, backspace: Byte, bracketed: bool, run: bool)
    requires Valid(m) && Composing(m) == Some(typed) && !m.scan.Ground? && !(typed <= command)
    requires (backspace == 0x7F || backspace == 0x08) && Textual(command)
    ensures var (after, lines) := Feed(m, CompletionBytes(typed, command, backspace, bracketed, run));
            !Lands(after, lines, command, run)
  {
    var bytes := CompletionBytes(typed, command, backspace, bracketed, run);
    assert typed != [];
    assert bytes[0] == Erases(|typed|, backspace)[0] == backspace;
    FirstByteTaints(m, backspace);
    NoInterruptInPick(typed, command, backspace, bracketed, run);
    TaintedNeverLands(m, bytes, command, run);
  }

  lemma BracketedMidEscape(m: Mirror, typed: seq<char>, command: seq<char>, backspace: Byte, run: bool)
    requires Valid(m) && Composing(m) == Some(typed) && !m.scan.Ground? && typed <= command
    requires (backspace == 0x7F || backspace == 0x08) && Textual(command) && |command| <= MAX_LINE
    ensures var (after, lines) := Feed(m, CompletionBytes(typed, command, backspace, true, run));
            Lands(after, lines, command, run) <==> m.scan.Esc?
  {
    var bytes := CompletionBytes(typed, command, backspace, true, run);
    EncodeMarkers();
    assert bytes[0] == 0x1B;
    if m.scan.Esc? {
      var ground := m.(scan := Ground);
      assert Step(ground, 0x1B) == Step(m, 0x1B);
      PickLandsOnGround(ground, typed, command, backspace, true, run);
    } else {
      FirstByteTaints(m, 0x1B);
      NoInterruptInPick(typed, command, backspace, true, run);
      TaintedNeverLands(m, bytes, command, run);
    }
  }

  lemma ReturnSubmitsTheLine(m: Mirror)
    requires Valid(m)
    ensures forall i :: 0 <= i < |Step(m, 0x0D).1| ==> Step(m, 0x0D).1[i].text == m.chars
  {}

  lemma ShortNeverLands(m: Mirror, lines: seq<Submitted>, command: seq<char>)
    requires AllShorter(m, lines, |command|)
    ensures !Lands(m, lines, command, false) && !Lands(m, lines, command, true)
  {
    assert [Submitted(command, false)][0].text == command;
    assert Composing(m) == Some(command) ==> m.chars == command;
  }

  /** Nor does sending a return: it submits the line as it is, or nothing. */
  lemma ReturnNeverLands(m: Mirror, bytes: seq<Byte>, command: seq<char>)
    requires Valid(m) && AllShorter(Feed(m, bytes).0, Feed(m, bytes).1, |command|)
    ensures Feed(m, bytes + [0x0D]).1 != [Submitted(command, false)]
  {
    var filled, lines := Feed(m, bytes).0, Feed(m, bytes + [0x0D]).1;
    FeedConcat(m, bytes, [0x0D]);
    FeedOne(filled, 0x0D);
    ReturnSubmitsTheLine(filled);
    assert forall i :: 0 <= i < |lines| ==> |lines[i].text| < |command|;
    assert [Submitted(command, false)][0].text == command;
  }

  lemma BareMidEscape(m: Mirror, typed: seq<char>, command: seq<char>, backspace: Byte, run: bool)
    requires Valid(m) && Composing(m) == Some(typed) && !m.scan.Ground? && typed <= command && Textual(command)
    ensures var (after, lines) := Feed(m, CompletionBytes(typed, command, backspace, false, run));
            Lands(after, lines, command, run) <==> !run && typed == command
  {
    var text := ToType(typed, command);
    WrapTextual(text, false);
    var bytes := EncodeAll(Returns(text));
    assert CompletionBytes(typed, command, backspace, false, false) == bytes;
    RunIsAppended(typed, command, backspace, false);
    if text == [] {
      assert typed == command && bytes == [] && bytes + [0x0D] == [0x0D];
      FirstByteTaints(m, 0x0D);
      FeedOne(m, 0x0D);
    } else {
      assert |typed| + |text| == |command|;
      EatenTextFallsShort(m, text);
      ShortNeverLands(Feed(m, bytes).0, Feed(m, bytes).1, command);
      ReturnNeverLands(m, bytes, command);
    }
  }

  /**
   A pick lands, exactly. From any line the mirror vouches for, picking any
   storable command leaves the line holding that command and nothing else - or runs
   it, once - if and only if: with no escape sequence begun, the text goes in as a
   bracketed paste or what is left to type has no tab and no newline; with one
   begun, it is a lone ESC and the pick extends the line by a bracketed paste, or
   there is nothing to send at all.
   */
  lemma PickLandsExactly(m: Mirror, typed: seq<char>, command: seq<char>, backspace: Byte, bracketed: bool, run: bool)
    requires Valid(m) && Composing(m) == Some(typed)
    requires backspace == 0x7F || backspace == 0x08
    requires Storable(command)
    ensures var (after, lines) := Feed(m, CompletionBytes(typed, command, backspace, bracketed, run));
            var text := ToType(typed, command);
            Lands(after, lines, command, run) <==>
              if m.scan.Ground? then bracketed || ('\t' !in text && '\n' !in text)
              else LandsMidEscape(m.scan, typed, command, bracketed, run)
  {
    StorableFits(command);
    if m.scan.Ground? {
      PickLandsOnGround(m, typed, command, backspace, bracketed, run);
    } else if !(typed <= command) {
      ErasingMidEscape(m, typed, command, backspace, bracketed, run);
    } else if bracketed {
      BracketedMidEscape(m, typed, command, backspace, run);
    } else {
      BareMidEscape(m, typed, command, backspace, run);
    }
  }
}
