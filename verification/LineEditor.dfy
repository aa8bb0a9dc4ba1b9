/**
 A line editor over keys: the text before the caret, the text after it, and whether
 the editor at the other end may hold something else. Sent what each key sends, the
 mirror is that editor.
 */
module LineEditor {
  import opened Options
  import opened Chars
  import opened Utf8
  import opened LineMirror
  import opened Completion

  /** `lost` when a key whose effect is not known here, or an overflow, has touched the line. */
  datatype Editor = Editor(before: seq<char>, after: seq<char>, lost: bool)

  datatype Key =
    | Type(c: char)
    | Paste(text: seq<char>)
    | Backspace
    | Delete
    | MoveLeft
    | MoveRight
    | Home
    | End
    | KillToStart
    | KillToEnd
    | KillWord
    | Swap
    | ClearScreen
    | Submit
    | Interrupt
    | Other  // history, completion, word motions, function keys, reports

  const Blank := Editor([], [], false)

  // ----- The editor -----

  function Line(e: Editor): seq<char> { e.before + e.after }

  /** A line holds 16384 characters. */
  function Put(e: Editor, c: char): Editor {
    if |e.before| + |e.after| >= 16384 then e.(lost := true) else e.(before := e.before + [c])
  }

  /** Pasted text goes in as it is, a carriage return as the newline it stands for. */
  function PutAll(e: Editor, text: seq<char>): Editor
    decreases |text|
  {
    if text == [] then e else PutAll(Put(e, if text[0] == '\r' then '\n' else text[0]), text[1..])
  }

  function DropBlanks(s: seq<char>): (r: seq<char>)
    ensures r <= s
  {
    if s != [] && IsWhitespace(s[|s| - 1]) then DropBlanks(s[..|s| - 1]) else s
  }

  function DropWord(s: seq<char>): (r: seq<char>)
    ensures r <= s
  {
    if s != [] && !IsWhitespace(s[|s| - 1]) then DropWord(s[..|s| - 1]) else s
  }

  /** The last character of a text that has one. */
  function LastOf(s: seq<char>): char
    requires s != []
  {
    s[|s| - 1]
  }

  function Press(e: Editor, key: Key): (Editor, seq<Submitted>) {
    var (before, after) := (e.before, e.after);
    match key
    case Type(c) => (Put(e, c), [])
    case Paste(text) => (PutAll(e, text), [])
    case Backspace => (if before == [] then e else e.(before := before[..|before| - 1]), [])
    case Delete => (if after == [] then e else e.(after := after[1..]), [])
    case MoveLeft =>
      (if before == [] then e else e.(before := before[..|before| - 1], after := [LastOf(before)] + after), [])
    case MoveRight => (if after == [] then e else e.(before := before + [after[0]], after := after[1..]), [])
    case Home => (e.(before := [], after := Line(e)), [])
    case End => (e.(before := Line(e), after := []), [])
    case KillToStart => (e.(before := []), [])
    case KillToEnd => (e.(after := []), [])
    case KillWord => (e.(before := DropWord(DropBlanks(before))), [])
    case Swap => (Swapped(e), [])
    case ClearScreen => (e, [])
    case Submit => (Blank, [Submitted(Line(e), e.lost)])
    case Interrupt => (Blank, [])
    case Other => (e.(lost := true), [])
  }

  /** The characters around the caret change places; at the end of the line, the last two. */
  function Swapped(e: Editor): Editor {
    var n := |e.before|;
    if n > 0 && e.after != [] then
      e.(before := e.before[..n - 1] + [e.after[0], e.before[n - 1]], after := e.after[1..])
    else if n > 1 then e.(before := e.before[..n - 2] + [e.before[n - 1], e.before[n - 2]])
    else e
  }

  // ----- What each key sends -----

  /** `ESC [`, the parameters, a final byte. */
  function CsiBytes(params: seq<Byte>, last: char): seq<Byte>
    requires last as int < 0x80
  {
    [0x1B, '[' as int] + params + [last as int]
  }

  /** `ESC O` and a letter. */
  function Ss3Bytes(last: char): seq<Byte>
    requires last as int < 0x80
  {
    [0x1B, 'O' as int, last as int]
  }

  predicate IsParams(params: seq<Byte>) { forall i :: 0 <= i < |params| ==> 0x20 <= params[i] <= 0x3F }

  function Digit(d: char): seq<Byte>
    requires '0' <= d <= '9'
  {
    [d as int]
  }

  /** A sequence whose parameters and final byte name none of the keys above. */
  predicate OtherCsi(params: seq<Byte>, last: Byte) {
    && |params| <= 16 && IsParams(params) && !(0x20 <= last <= 0x3F)
    && !(params == [] && (last == 'D' as int || last == 'C' as int || last == 'H' as int || last == 'F' as int))
    && !(last == '~' as int
         && (params == Digit('1') || params == Digit('7') || params == Digit('4') || params == Digit('8')
             || params == Digit('3') || params == [50, 48, 48]))
  }

  predicate OtherControl(bytes: seq<Byte>) {
    && |bytes| == 1 && bytes[0] < 0x20
    && bytes[0] !in {0x01, 0x02, 0x03, 0x04, 0x05, 0x06, 0x08, 0x0A, 0x0B, 0x0C, 0x0D, 0x14, 0x15, 0x17, 0x1B}
  }

  predicate AltChord(bytes: seq<Byte>) {
    |bytes| == 2 && bytes[0] == 0x1B && bytes[1] != '[' as int && bytes[1] != 'O' as int && bytes[1] != 0x1B
  }

  predicate OtherSs3(bytes: seq<Byte>) {
    && |bytes| == 3 && bytes[0] == 0x1B && bytes[1] == 'O' as int
    && bytes[2] != 'D' as int && bytes[2] != 'C' as int && bytes[2] != 'H' as int && bytes[2] != 'F' as int
  }

  /** What any other key sends: a control byte, an Alt chord, an unknown sequence, or one too long to read. */
  ghost predicate OtherBytes(bytes: seq<Byte>) {
    || OtherControl(bytes) || AltChord(bytes) || OtherSs3(bytes)
    || (exists params, last: Byte :: OtherCsi(params, last) && bytes == [0x1B, '[' as int] + params + [last])
    || (exists params :: |params| == 17 && IsParams(params) && bytes == [0x1B, '[' as int] + params)
  }

  ghost predicate Sends(key: Key, bytes: seq<Byte>) {
    match key
    case Type(c) => c as int >= 0x20 && c as int != 0x7F && bytes == Encode(c)
    case Paste(text) => ESC !in text && bytes == EncodeAll(PasteStart) + EncodeAll(text) + EncodeAll(PasteEnd)
    case Backspace => bytes == [0x7F] || bytes == [0x08]
    case Delete => bytes == [0x04] || bytes == CsiBytes(Digit('3'), '~')
    case MoveLeft => bytes == [0x02] || bytes == CsiBytes([], 'D') || bytes == Ss3Bytes('D')
    case MoveRight => bytes == [0x06] || bytes == CsiBytes([], 'C') || bytes == Ss3Bytes('C')
    case Home =>
      || bytes == [0x01] || bytes == CsiBytes([], 'H') || bytes == Ss3Bytes('H')
      || bytes == CsiBytes(Digit('1'), '~') || bytes == CsiBytes(Digit('7'), '~')
    case End =>
      || bytes == [0x05] || bytes == CsiBytes([], 'F') || bytes == Ss3Bytes('F')
      || bytes == CsiBytes(Digit('4'), '~') || bytes == CsiBytes(Digit('8'), '~')
    case KillToStart => bytes == [0x15]
    case KillToEnd => bytes == [0x0B]
    case KillWord => bytes == [0x17]
    case Swap => bytes == [0x14]
    case ClearScreen => bytes == [0x0C]
    case Submit => bytes == [0x0D] || bytes == [0x0A]
    case Interrupt => bytes == [0x03]
    case Other => OtherBytes(bytes)
  }

  // ----- The mirror shows the editor -----

  predicate Shows(m: Mirror, e: Editor) {
    && m.chars == Line(e) && m.cursor == |e.before| && m.tainted == e.lost
    && m.scan.Ground? && !m.inPaste && m.pending == []
  }

  /** The mirror shows the editor after the key, and has submitted what it has. */
  predicate Follows(r: (Mirror, seq<Submitted>), p: (Editor, seq<Submitted>)) { Shows(r.0, p.0) && r.1 == p.1 }

  lemma LeftShows(m: Mirror, e: Editor)
    requires Shows(m, e)
    ensures Shows(Left(m), Press(e, MoveLeft).0)
  {
    if e.before != [] {
      assert e.before == e.before[..|e.before| - 1] + [LastOf(e.before)];
    }
  }

  lemma RightShows(m: Mirror, e: Editor)
    requires Shows(m, e)
    ensures Shows(Right(m), Press(e, MoveRight).0)
  {
    if e.after != [] {
      assert e.after == [e.after[0]] + e.after[1..];
    }
  }

  lemma DeleteShows(m: Mirror, e: Editor)
    requires Shows(m, e)
    ensures Shows(DeleteUnder(m), Press(e, Delete).0)
  {
    if e.after != [] {
      assert Line(e)[..|e.before|] == e.before && Line(e)[|e.before| + 1..] == e.after[1..];
    }
  }

  lemma EndsShow(m: Mirror, e: Editor)
    requires Shows(m, e)
    ensures Shows(m.(cursor := 0), Press(e, Home).0)
    ensures Shows(m.(cursor := |m.chars|), Press(e, End).0)
  {
    assert [] + Line(e) == Line(e) == Line(e) + [];
  }

  lemma InsertShows(m: Mirror, e: Editor, c: char)
    requires m.chars == Line(e) && m.cursor == |e.before| && m.tainted == e.lost
    ensures var n, f := Insert(m, c), Put(e, c);
            n.chars == Line(f) && n.cursor == |f.before| && n.tainted == f.lost
  {
    assert Line(e)[..|e.before|] == e.before && Line(e)[|e.before|..] == e.after;
  }

  lemma SwapShows(m: Mirror, e: Editor)
    requires Shows(m, e)
    ensures Shows(LineMirror.Transpose(m), Press(e, Swap).0)
  {
    var n := |e.before|;
    var line, f := Line(e), Swapped(e);
    if n > 0 && e.after != [] {
      assert line[n - 1 := line[n]][n := line[n - 1]] == Line(f);
    } else if n > 1 {
      assert line[n - 2 := line[n - 1]][n - 1 := line[n - 2]] == Line(f);
    }
  }

  lemma {:induction false} BlanksBack(chars: seq<char>, i: nat)
    requires i <= |chars|
    ensures DropBlanks(chars[..i]) == chars[..SkipBlanksBack(chars, i)]
  {
    if i > 0 && IsWhitespace(chars[i - 1]) {
      assert chars[..i][..i - 1] == chars[..i - 1];
      BlanksBack(chars, i - 1);
    }
  }

  lemma {:induction false} WordBack(chars: seq<char>, i: nat)
    requires i <= |chars|
    ensures DropWord(chars[..i]) == chars[..WordStart(chars, i)]
  {
    if i > 0 && !IsWhitespace(chars[i - 1]) {
      assert chars[..i][..i - 1] == chars[..i - 1];
      WordBack(chars, i - 1);
    }
  }

  lemma KillWordShows(m: Mirror, e: Editor)
    requires Shows(m, e)
    ensures var i := WordStart(m.chars, SkipBlanksBack(m.chars, m.cursor));
            Shows(m.(chars := m.chars[..i] + m.chars[m.cursor..], cursor := i), Press(e, KillWord).0)
  {
    assert m.chars[..m.cursor] == e.before && m.chars[m.cursor..] == e.after;
    BlanksBack(m.chars, m.cursor);
    WordBack(m.chars, SkipBlanksBack(m.chars, m.cursor));
  }

  /** What a word is: the last run of characters that are not blank, with the blanks behind it. */
  lemma {:induction false} KillWordExactly(s: seq<char>)
    ensures var kept := DropWord(DropBlanks(s));
            && kept <= DropBlanks(s) <= s
            && (forall i :: |DropBlanks(s)| <= i < |s| ==> IsWhitespace(s[i]))
            && (forall i :: |kept| <= i < |DropBlanks(s)| ==> !IsWhitespace(s[i]))
            && (kept != [] ==> IsWhitespace(LastOf(kept)) && kept < DropBlanks(s))
  {
    BlanksEnd(s);
    WordEnds(DropBlanks(s));
  }

  lemma {:induction false} BlanksEnd(s: seq<char>)
    ensures forall i :: |DropBlanks(s)| <= i < |s| ==> IsWhitespace(s[i])
    ensures DropBlanks(s) != [] ==> !IsWhitespace(LastOf(DropBlanks(s)))
  {
    if s != [] && IsWhitespace(s[|s| - 1]) {
      BlanksEnd(s[..|s| - 1]);
    }
  }

  lemma {:induction false} WordEnds(s: seq<char>)
    ensures forall i :: |DropWord(s)| <= i < |s| ==> !IsWhitespace(s[i])
    ensures DropWord(s) != [] ==> IsWhitespace(LastOf(DropWord(s)))
  {
    if s != [] && !IsWhitespace(s[|s| - 1]) {
      WordEnds(s[..|s| - 1]);
    }
  }

  // ----- Key by key -----

  lemma TypeShows(m: Mirror, e: Editor, c: char)
    requires Shows(m, e) && c as int >= 0x20 && c as int != 0x7F
    ensures Valid(m) && Shows(Feed(m, Encode(c)).0, Put(e, c)) && Feed(m, Encode(c)).1 == []
  {
    InsertShows(m, e, c);
    if c as int >= 0x80 {
      FeedScalar(m, c);
    } else {
      FeedOne(m, c as int);
      assert (c as int) as char == c;
    }
  }

  lemma FeedOpeners(m: Mirror)
    requires Valid(m) && m.scan.Ground? && m.pending == []
    ensures Feed(m, [0x1B, '[' as int]) == (m.(scan := Csi, params := []), [])
    ensures Feed(m, [0x1B, 'O' as int]) == (m.(scan := Ss3), [])
  {
    FeedConcat(m, [0x1B], ['[' as int]);
    FeedConcat(m, [0x1B], ['O' as int]);
    assert [0x1B] + ['[' as int] == [0x1B, '[' as int] && [0x1B] + ['O' as int] == [0x1B, 'O' as int];
    FeedOne(m, 0x1B);
    FeedOne(m.(scan := Esc), '[' as int);
    FeedOne(m.(scan := Esc), 'O' as int);
  }

  /** `ESC [`, parameters, and a byte that ends them or cuts them off. */
  lemma FeedCsi(m: Mirror, params: seq<Byte>, last: Byte)
    requires Valid(m) && m.scan.Ground? && m.pending == []
    requires IsParams(params) && |params| <= 16
    ensures Feed(m, [0x1B, '[' as int] + params + [last]) == (OnCsi(m.(scan := Csi, params := params), last), [])
  {
    FeedConcat(m, [0x1B, '[' as int] + params, [last]);
    FeedConcat(m, [0x1B, '[' as int], params);
    FeedOpeners(m);
    FeedParams(m.(scan := Csi, params := []), params);
    assert [] + params == params;
    FeedOne(m.(scan := Csi, params := params), last);
  }

  lemma FeedSs3(m: Mirror, last: Byte)
    requires Valid(m) && m.scan.Ground? && m.pending == []
    ensures Feed(m, [0x1B, 'O' as int, last]) == (OnSs3(m.(scan := Ss3), last), [])
  {
    FeedConcat(m, [0x1B, 'O' as int], [last]);
    assert [0x1B, 'O' as int] + [last] == [0x1B, 'O' as int, last];
    FeedOpeners(m);
    FeedOne(m.(scan := Ss3), last);
  }

  /** A control byte that is a key of the editor. */
  lemma ControlShows(m: Mirror, e: Editor, key: Key, b: Byte)
    requires Shows(m, e) && Sends(key, [b]) && !key.Type? && !key.Paste? && !key.Other?
    ensures Valid(m) && Follows(Feed(m, [b]), Press(e, key))
  {
    FeedOne(m, b);
    ControlSteps(m, e, key, b);
  }

  predicate AtRest(m: Mirror) { Valid(m) && m.scan.Ground? && !m.inPaste && m.pending == [] }

  lemma MoveBytes(m: Mirror)
    requires AtRest(m)
    ensures Step(m, 0x02) == (Left(m), []) && Step(m, 0x06) == (Right(m), [])
    ensures Step(m, 0x01) == (m.(cursor := 0), []) && Step(m, 0x05) == (m.(cursor := |m.chars|), [])
    ensures Step(m, 0x14) == (LineMirror.Transpose(m), [])
  {
    assert m.(pending := []) == m;
  }

  lemma KillBytes(m: Mirror)
    requires AtRest(m)
    ensures Step(m, 0x15) == (m.(chars := m.chars[m.cursor..], cursor := 0), [])
    ensures Step(m, 0x0B) == (m.(chars := m.chars[..m.cursor]), [])
    ensures var i := WordStart(m.chars, SkipBlanksBack(m.chars, m.cursor));
            Step(m, 0x17) == (m.(chars := m.chars[..i] + m.chars[m.cursor..], cursor := i), [])
  {
    assert m.(pending := []) == m;
  }

  lemma ErasesStep(m: Mirror, e: Editor, b: Byte)
    requires Shows(m, e)
    ensures b == 0x7F || b == 0x08 ==> Follows(Step(m, b), Press(e, Backspace))
    ensures b == 0x04 ==> Follows(Step(m, b), Press(e, Delete))
  {
    DeleteShows(m, e);
    if e.before != [] {
      assert Line(e)[..|e.before| - 1] == e.before[..|e.before| - 1] && Line(e)[|e.before|..] == e.after;
    }
  }

  lemma KillsStep(m: Mirror, e: Editor)
    requires Shows(m, e)
    ensures Follows(Step(m, 0x15), Press(e, KillToStart)) && Follows(Step(m, 0x0B), Press(e, KillToEnd))
    ensures Follows(Step(m, 0x17), Press(e, KillWord))
  {
    KillBytes(m);
    assert Line(e)[..|e.before|] == e.before && Line(e)[|e.before|..] == e.after;
    KillWordShows(m, e);
  }

  lemma MovesShow(m: Mirror, e: Editor)
    requires Shows(m, e)
    ensures Follows((Left(m), []), Press(e, MoveLeft)) && Follows((Right(m), []), Press(e, MoveRight))
    ensures Follows((m.(cursor := 0), []), Press(e, Home)) && Follows((m.(cursor := |m.chars|), []), Press(e, End))
    ensures Follows((LineMirror.Transpose(m), []), Press(e, Swap))
  {
    LeftShows(m, e);
    RightShows(m, e);
    EndsShow(m, e);
    SwapShows(m, e);
  }

  lemma MovesStep(m: Mirror, e: Editor, key: Key, b: Byte)
    requires Shows(m, e)
    requires match key
             case MoveLeft => b == 0x02
             case MoveRight => b == 0x06
             case Home => b == 0x01
             case End => b == 0x05
             case Swap => b == 0x14
             case _ => false
    ensures Follows(Step(m, b), Press(e, key))
  {
    MoveBytes(m);
    MovesShow(m, e);
  }

  lemma ControlSteps(m: Mirror, e: Editor, key: Key, b: Byte)
    requires Shows(m, e) && Sends(key, [b]) && !key.Type? && !key.Paste? && !key.Other?
    ensures Valid(m) && Follows(Step(m, b), Press(e, key))
  {
    OneByteKeys(key, b);
    if key.Backspace? || key.Delete? {
      ErasesStep(m, e, b);
    } else if key.KillToStart? || key.KillToEnd? || key.KillWord? {
      KillsStep(m, e);
    } else if key.MoveLeft? || key.MoveRight? || key.Home? || key.End? || key.Swap? {
      MovesStep(m, e, key, b);
    }
  }

  /** The control byte of each key. */
  lemma OneByteKeys(key: Key, b: Byte)
    requires Sends(key, [b]) && !key.Type? && !key.Paste? && !key.Other?
    ensures match key
            case Backspace => b == 0x7F || b == 0x08
            case Delete => b == 0x04
            case MoveLeft => b == 0x02
            case MoveRight => b == 0x06
            case Home => b == 0x01
            case End => b == 0x05
            case KillToStart => b == 0x15
            case KillToEnd => b == 0x0B
            case KillWord => b == 0x17
            case Swap => b == 0x14
            case ClearScreen => b == 0x0C
            case Submit => b == 0x0D || b == 0x0A
            case Interrupt => b == 0x03
            case _ => true
  {
    assert [b][0] == b && |[b]| == 1;
  }

  /** The key that sends this letter after `ESC [` or `ESC O`. */
  function LetterKey(b: Byte): Key {
    if b == 'D' as int then MoveLeft
    else if b == 'C' as int then MoveRight
    else if b == 'H' as int then Home
    else if b == 'F' as int then End
    else Other
  }

  lemma LetterSteps(m: Mirror, e: Editor, b: Byte)
    requires Shows(m, e) && !LetterKey(b).Other?
    ensures Shows(OnCsi(m.(scan := Csi, params := []), b), Press(e, LetterKey(b)).0)
    ensures Shows(OnSs3(m.(scan := Ss3), b), Press(e, LetterKey(b)).0)
  {
    var g := m.(params := []);
    LeftShows(m, e);
    LeftShows(g, e);
    RightShows(m, e);
    RightShows(g, e);
    EndsShow(m, e);
    EndsShow(g, e);
  }

  lemma LetterShows(m: Mirror, e: Editor, b: Byte)
    requires Shows(m, e) && !LetterKey(b).Other?
    ensures Valid(m)
    ensures Follows(Feed(m, [0x1B, '[' as int] + [] + [b]), Press(e, LetterKey(b)))
    ensures Follows(Feed(m, [0x1B, 'O' as int, b]), Press(e, LetterKey(b)))
  {
    LetterSteps(m, e, b);
    LetterSubmitsNothing(e, b);
    FeedCsi(m, [], b);
    FeedSs3(m, b);
  }

  lemma LetterSubmitsNothing(e: Editor, b: Byte)
    ensures Press(e, LetterKey(b)).1 == []
  {}

  /** The key that sends this digit between `ESC [` and a tilde. */
  function DigitKey(d: char): Key {
    if d == '3' then Delete else if d == '1' || d == '7' then Home else if d == '4' || d == '8' then End else Other
  }

  lemma DigitSteps(m: Mirror, e: Editor, d: char)
    requires Shows(m, e) && !DigitKey(d).Other?
    ensures Shows(OnCsi(m.(scan := Csi, params := Digit(d)), '~' as int), Press(e, DigitKey(d)).0)
  {
    DeleteShows(m.(params := []), e);
    EndsShow(m.(params := []), e);
  }

  lemma DigitShows(m: Mirror, e: Editor, d: char)
    requires Shows(m, e) && !DigitKey(d).Other?
    ensures Valid(m) && Follows(Feed(m, CsiBytes(Digit(d), '~')), Press(e, DigitKey(d)))
  {
    DigitSteps(m, e, d);
    FeedCsi(m, Digit(d), '~' as int);
  }

  /** A sequence that moves or deletes. */
  lemma SequenceShows(m: Mirror, e: Editor, key: Key, bytes: seq<Byte>)
    requires Shows(m, e) && Sends(key, bytes) && |bytes| > 1
    requires key.Delete? || key.MoveLeft? || key.MoveRight? || key.Home? || key.End?
    ensures Valid(m) && Follows(Feed(m, bytes), Press(e, key))
  {
    match key {
      case Delete => DigitShows(m, e, '3');
      case MoveLeft => LetterShows(m, e, 'D' as int);
      case MoveRight => LetterShows(m, e, 'C' as int);
      case Home =>
        LetterShows(m, e, 'H' as int);
        DigitShows(m, e, '1');
        DigitShows(m, e, '7');
      case End =>
        LetterShows(m, e, 'F' as int);
        DigitShows(m, e, '4');
        DigitShows(m, e, '8');
    }
  }

  lemma OtherControlShows(m: Mirror, e: Editor, bytes: seq<Byte>)
    requires Shows(m, e) && OtherControl(bytes)
    ensures Valid(m) && Follows(Feed(m, bytes), Press(e, Other))
  {
    assert bytes == [bytes[0]];
    FeedOne(m, bytes[0]);
  }

  lemma ChordShows(m: Mirror, e: Editor, bytes: seq<Byte>)
    requires Shows(m, e) && AltChord(bytes)
    ensures Valid(m) && Follows(Feed(m, bytes), Press(e, Other))
  {
    assert bytes == [0x1B] + [bytes[1]];
    FeedConcat(m, [0x1B], [bytes[1]]);
    FeedOne(m, 0x1B);
    FeedOne(m.(scan := Scan.Esc), bytes[1]);
  }

  lemma OtherSs3Shows(m: Mirror, e: Editor, bytes: seq<Byte>)
    requires Shows(m, e) && OtherSs3(bytes)
    ensures Valid(m) && Follows(Feed(m, bytes), Press(e, Other))
  {
    assert bytes == [0x1B, 'O' as int, bytes[2]];
    FeedSs3(m, bytes[2]);
  }

  lemma OtherCsiShows(m: Mirror, e: Editor, params: seq<Byte>, last: Byte)
    requires Shows(m, e) && (OtherCsi(params, last) || (|params| == 16 && IsParams(params) && 0x20 <= last <= 0x3F))
    ensures Valid(m) && Follows(Feed(m, [0x1B, '[' as int] + params + [last]), Press(e, Other))
  {
    FeedCsi(m, params, last);
  }

  /** Whatever any other key sends, the mirror no longer vouches for the line, and keeps what it held. */
  lemma OtherShows(m: Mirror, e: Editor, bytes: seq<Byte>)
    requires Shows(m, e) && OtherBytes(bytes)
    ensures Valid(m) && Follows(Feed(m, bytes), Press(e, Other))
  {
    if OtherControl(bytes) {
      OtherControlShows(m, e, bytes);
    } else if AltChord(bytes) {
      ChordShows(m, e, bytes);
    } else if OtherSs3(bytes) {
      OtherSs3Shows(m, e, bytes);
    } else if exists params, last: Byte :: OtherCsi(params, last) && bytes == [0x1B, '[' as int] + params + [last] {
      var params, last: Byte :| OtherCsi(params, last) && bytes == [0x1B, '[' as int] + params + [last];
      OtherCsiShows(m, e, params, last);
    } else {
      var params :| |params| == 17 && IsParams(params) && bytes == [0x1B, '[' as int] + params;
      OtherCsiShows(m, e, params[..16], params[16]);
      assert bytes == [0x1B, '[' as int] + params[..16] + [params[16]];
    }
  }

  // ----- Pastes -----

  /** As `Shows`, between the brackets of a paste. */
  predicate ShowsPasting(m: Mirror, e: Editor) {
    m.inPaste && Shows(m.(inPaste := false), e)
  }

  /** Text without ESC goes in character for character, control characters too. */
  lemma {:induction false} PasteShows(m: Mirror, e: Editor, text: seq<char>)
    requires ShowsPasting(m, e) && ESC !in text
    ensures Valid(m)
    ensures ShowsPasting(Feed(m, EncodeAll(text)).0, PutAll(e, text)) && Feed(m, EncodeAll(text)).1 == []
    decreases |text|
  {
    if text != [] {
      var c := text[0];
      assert c != ESC;
      PastedShows(m, e, c);
      StepsStayValid(m, Encode(c));
      var n := Feed(m, Encode(c)).0;
      PasteShows(n, Put(e, if c == '\r' then '\n' else c), text[1..]);
      FeedConcat(m, Encode(c), EncodeAll(text[1..]));
    }
  }

  lemma StepsStayValid(m: Mirror, bytes: seq<Byte>)
    requires Valid(m)
    ensures Valid(Feed(m, bytes).0)
  {}

  lemma PastedShows(m: Mirror, e: Editor, c: char)
    requires ShowsPasting(m, e) && c != ESC
    ensures Valid(m)
    ensures ShowsPasting(Feed(m, Encode(c)).0, Put(e, if c == '\r' then '\n' else c)) && Feed(m, Encode(c)).1 == []
  {
    InsertShows(m, e, if c == '\r' then '\n' else c);
    if c as int >= 0x80 {
      FeedScalar(m, c);
    } else {
      FeedOne(m, c as int);
      assert (c as int) as char == c;
    }
  }

  lemma OpensShow(m: Mirror, e: Editor)
    requires Shows(m, e)
    ensures Valid(m)
    ensures ShowsPasting(Feed(m, EncodeAll(PasteStart)).0, e) && Feed(m, EncodeAll(PasteStart)).1 == []
  {
    EncodeMarkers();
    assert EncodeAll(PasteStart) == [0x1B, '[' as int] + [50, 48, 48] + ['~' as int];
    FeedCsi(m, [50, 48, 48], '~' as int);
  }

  lemma ClosesShow(m: Mirror, e: Editor)
    requires ShowsPasting(m, e)
    ensures Valid(m)
    ensures Shows(Feed(m, EncodeAll(PasteEnd)).0, e) && Feed(m, EncodeAll(PasteEnd)).1 == []
  {
    EncodeMarkers();
    assert EncodeAll(PasteEnd) == [0x1B, '[' as int] + [50, 48, 49] + ['~' as int];
    FeedCsi(m, [50, 48, 49], '~' as int);
  }

  lemma BracketedShows(m: Mirror, e: Editor, text: seq<char>)
    requires Shows(m, e) && ESC !in text
    ensures Valid(m)
    ensures Follows(Feed(m, EncodeAll(PasteStart) + EncodeAll(text) + EncodeAll(PasteEnd)), Press(e, Paste(text)))
  {
    var a, b, c := EncodeAll(PasteStart), EncodeAll(text), EncodeAll(PasteEnd);
    FeedConcat(m, a + b, c);
    FeedConcat(m, a, b);
    OpensShow(m, e);
    PasteShows(Feed(m, a).0, e, text);
    ClosesShow(Feed(Feed(m, a).0, b).0, PutAll(e, text));
  }

  // ----- Pastes that hold an ESC -----

  /** The text as the editor at the other end takes it. */
  function Literal(text: seq<char>): seq<char> {
    if text == [] then [] else [if text[0] == '\r' then '\n' else text[0]] + Literal(text[1..])
  }

  function PasteBytes(text: seq<char>): seq<Byte> { EncodeAll(PasteStart) + EncodeAll(text) + EncodeAll(PasteEnd) }

  lemma {:induction false} PutAllIsLiteral(e: Editor, text: seq<char>)
    requires |Line(e)| + |text| <= 16384
    ensures PutAll(e, text) == e.(before := e.before + Literal(text)) && |Literal(text)| == |text|
    decreases |text|
  {
    if text == [] {
      assert e.before + [] == e.before;
    } else {
      var c := if text[0] == '\r' then '\n' else text[0];
      var rest := Literal(text[1..]);
      assert Put(e, c) == e.(before := e.before + [c]);
      PutAllIsLiteral(Put(e, c), text[1..]);
      assert Literal(text) == [c] + rest;
      assert (e.before + [c]) + rest == e.before + ([c] + rest);
    }
  }

  lemma {:induction false} EncodeConcat(a: seq<char>, b: seq<char>)
    ensures EncodeAll(a + b) == EncodeAll(a) + EncodeAll(b)
  {
    if a == [] {
      assert a + b == b;
    } else {
      assert (a + b)[1..] == a[1..] + b;
      EncodeConcat(a[1..], b);
    }
  }

  /** The text up to its first ESC. */
  lemma {:induction false} FirstEsc(text: seq<char>) returns (k: nat)
    requires ESC in text
    ensures k < |text| && text[k] == ESC && ESC !in text[..k]
  {
    if text[0] == ESC {
      k := 0;
    } else {
      var j := FirstEsc(text[1..]);
      k := j + 1;
      assert text[..k] == [text[0]] + text[1..][..j];
    }
  }

  lemma FeedFirst(m: Mirror, b: Byte, rest: seq<Byte>)
    requires Valid(m)
    ensures Valid(Step(m, b).0)
    ensures Feed(m, [b] + rest) == (Feed(Step(m, b).0, rest).0, Step(m, b).1 + Feed(Step(m, b).0, rest).1)
  {
    FeedConcat(m, [b], rest);
    FeedOne(m, b);
  }

  /** A sequence begun by an ESC already read. */
  lemma FeedAfterEsc(m: Mirror, params: seq<Byte>, last: Byte)
    requires Valid(m) && m.scan.Esc? && IsParams(params) && |params| <= 16
    ensures Feed(m, ['[' as int] + (params + [last])) == (OnCsi(m.(scan := Csi, params := params), last), [])
  {
    var csi := m.(scan := Csi, params := []);
    assert Step(m, '[' as int) == (csi, []);
    FeedFirst(m, '[' as int, params + [last]);
    FeedConcat(csi, params, [last]);
    FeedParams(csi, params);
    assert [] + params == params;
    FeedOne(m.(scan := Csi, params := params), last);
  }

  /** An ESC begins a sequence, or spoils the one begun. */
  lemma EscSteps(m: Mirror)
    requires Valid(m)
    ensures var (n, lines) := Step(m, 0x1B);
            lines == [] && n.chars == m.chars && Valid(n) && (n.scan.Esc? || n.tainted)
  {
    StepKeepsValid(m, 0x1B);
  }

  lemma ClosingAddsNothing(m: Mirror, digits: seq<Byte>)
    requires Valid(m) && m.scan.Esc? && digits == [50, 48, 49]
    ensures var (n, lines) := Feed(m, ['[' as int] + (digits + ['~' as int]));
            n.tainted || n.chars == m.chars
  {
    FeedAfterEsc(m, digits, '~' as int);
  }

  /** Whatever stands before it, the closing marker adds nothing to a line the mirror still vouches for. */
  lemma MarkerAddsNothing(m: Mirror)
    requires Valid(m)
    ensures var (n, lines) := Feed(m, EncodeAll(PasteEnd));
            lines != [] || n.tainted || n.chars == m.chars
  {
    EncodeMarkers();
    var digits: seq<Byte> := [50, 48, 49];
    var rest := ['[' as int] + (digits + ['~' as int]);
    assert EncodeAll(PasteEnd) == [0x1B] + rest;
    EscSteps(m);
    FeedFirst(m, 0x1B, rest);
    var n := Step(m, 0x1B).0;
    if n.tainted {
      TaintStays(n, rest);
    } else {
      ClosingAddsNothing(n, digits);
    }
  }

  /** What a paste leaves when it falls short: too little on the line, or a line not vouched for. */
  predicate FallsShort(r: (Mirror, seq<Submitted>), n: nat) { r.1 != [] || r.0.tainted || |r.0.chars| < n }

  lemma EatenPasteFallsShort(m: Mirror, rest: seq<char>)
    requires Valid(m) && m.scan.Esc? && m.pending == []
    ensures FallsShort(Feed(m, EncodeAll(rest) + EncodeAll(PasteEnd)), |m.chars| + |rest| + 1)
  {
    FeedConcat(m, EncodeAll(rest), EncodeAll(PasteEnd));
    LeadsOfText(rest);
    Grows(m, EncodeAll(rest));
    MarkerAddsNothing(Feed(m, EncodeAll(rest)).0);
  }

  /** The opening marker and a text without ESC. */
  lemma PrefixShows(m: Mirror, e: Editor, text: seq<char>)
    requires Shows(m, e) && ESC !in text && |Line(e)| + |text| <= 16384
    ensures Valid(m)
    ensures var (n, lines) := Feed(m, EncodeAll(PasteStart) + EncodeAll(text));
            lines == [] && ShowsPasting(n, e.(before := e.before + Literal(text))) && |Literal(text)| == |text|
  {
    FeedConcat(m, EncodeAll(PasteStart), EncodeAll(text));
    OpensShow(m, e);
    PasteShows(Feed(m, EncodeAll(PasteStart)).0, e, text);
    PutAllIsLiteral(e, text);
  }

  lemma Regroup(a: seq<Byte>, b: seq<Byte>, c: seq<Byte>, d: seq<Byte>, e: seq<Byte>)
    ensures a + (b + c + d) + e == (a + b) + (c + (d + e))
  {}

  lemma SplitAtEsc(a: seq<char>, b: seq<char>)
    ensures PasteBytes(a + [ESC] + b)
         == (EncodeAll(PasteStart) + EncodeAll(a)) + ([0x1B] + (EncodeAll(b) + EncodeAll(PasteEnd)))
  {
    EncodeConcat(a + [ESC], b);
    EncodeConcat(a, [ESC]);
    OneScalar(ESC);
    Regroup(EncodeAll(PasteStart), EncodeAll(a), [0x1B], EncodeAll(b), EncodeAll(PasteEnd));
  }

  lemma OneScalar(c: char)
    ensures EncodeAll([c]) == Encode(c)
  {
    assert [c][1..] == [];
  }

  lemma EscSpoils(m: Mirror, e: Editor, a: seq<char>, b: seq<char>)
    requires Shows(m, e) && ESC !in a && |Line(e)| + |a| + 1 + |b| <= 16384
    ensures Valid(m) && FallsShort(Feed(m, PasteBytes(a + [ESC] + b)), |Line(e)| + |a| + 1 + |b|)
  {
    var head, tail := EncodeAll(PasteStart) + EncodeAll(a), EncodeAll(b) + EncodeAll(PasteEnd);
    SplitAtEsc(a, b);
    PrefixShows(m, e, a);
    FeedConcat(m, head, [0x1B] + tail);
    EscInPaste(Feed(m, head).0, b);
  }

  lemma EscInPaste(m: Mirror, b: seq<char>)
    requires Valid(m) && m.scan.Ground? && m.pending == []
    ensures FallsShort(Feed(m, [0x1B] + (EncodeAll(b) + EncodeAll(PasteEnd))), |m.chars| + |b| + 1)
  {
    FeedFirst(m, 0x1B, EncodeAll(b) + EncodeAll(PasteEnd));
    EscSteps(m);
    assert Step(m, 0x1B) == (m.(scan := Esc), []);
    EatenPasteFallsShort(m.(scan := Esc), b);
  }

  lemma ShortIsNotAll(r: (Mirror, seq<Submitted>), e: Editor, text: seq<char>)
    requires FallsShort(r, |Line(e)| + |text|) && !e.lost && |Literal(text)| == |text|
    ensures !Follows(r, (e.(before := e.before + Literal(text)), []))
  {}

  /**
   A pasted text that fits is on the line as it is, vouched for, exactly when it has
   no ESC in it: the mirror takes an ESC for the start of a sequence, pasted or not.
   */
  lemma PasteExactly(m: Mirror, e: Editor, text: seq<char>)
    requires Shows(m, e) && !e.lost && |Line(e)| + |text| <= 16384
    ensures Valid(m)
    ensures Follows(Feed(m, PasteBytes(text)), (e.(before := e.before + Literal(text)), [])) <==> ESC !in text
  {
    PutAllIsLiteral(e, text);
    if ESC !in text {
      BracketedShows(m, e, text);
    } else {
      var k := FirstEsc(text);
      var a, b := text[..k], text[k + 1..];
      assert text == a + [ESC] + b;
      EscSpoils(m, e, a, b);
      ShortIsNotAll(Feed(m, PasteBytes(text)), e, text);
    }
  }

  lemma Reassociate(a: seq<Byte>, b: seq<Byte>, c: seq<Byte>)
    ensures a + (b + c) == a + b + c
  {}

  lemma PairEncodes(a: char, b: char)
    ensures EncodeAll([a, b]) == Encode(a) + Encode(b)
  {
    assert [a, b][1..] == [b];
    OneScalar(b);
  }

  lemma ArrowThenClose(m: Mirror, e: Editor, letters: seq<Byte>)
    requires ShowsPasting(m, e) && e.after == [] && letters == ['O' as int, 'C' as int]
    ensures Valid(m) && Shows(Feed(m, [0x1B] + (letters + EncodeAll(PasteEnd))).0, e)
  {
    Reassociate([0x1B], letters, EncodeAll(PasteEnd));
    assert [0x1B] + letters == [0x1B, 'O' as int, 'C' as int];
    FeedConcat(m, [0x1B] + letters, EncodeAll(PasteEnd));
    FeedSs3(m, 'C' as int);
    assert Line(e) == e.before;
    ClosesShow(m, e);
  }

  /** Nor is it always noticed: a pasted Right arrow leaves the mirror vouching for a line without it. */
  lemma PastedArrowGoesUnnoticed(m: Mirror, e: Editor, text: seq<char>, arrow: seq<char>)
    requires Shows(m, e) && !e.lost && e.after == []
    requires ESC !in text && |Line(e)| + |text| <= 16384 && arrow == ['O', 'C']
    ensures Valid(m) && Composing(Feed(m, PasteBytes(text + [ESC] + arrow)).0) == Some(e.before + Literal(text))
  {
    var head, tail := EncodeAll(PasteStart) + EncodeAll(text), [0x1B] + (EncodeAll(arrow) + EncodeAll(PasteEnd));
    SplitAtEsc(text, arrow);
    PairEncodes('O', 'C');
    assert Encode('O') + Encode('C') == ['O' as int, 'C' as int];
    PrefixShows(m, e, text);
    FeedConcat(m, head, tail);
    var n, held := Feed(m, head).0, e.(before := e.before + Literal(text));
    ArrowThenClose(n, held, EncodeAll(arrow));
    ShownIsComposed(Feed(n, tail).0, held);
  }

  // ----- Over every key sequence -----

  /** One key, whatever it is and however it is sent. */
  lemma KeyShows(m: Mirror, e: Editor, key: Key, bytes: seq<Byte>)
    requires Shows(m, e) && Sends(key, bytes)
    ensures Valid(m) && Follows(Feed(m, bytes), Press(e, key))
  {
    match key {
      case Type(c) => TypeShows(m, e, c);
      case Paste(text) => BracketedShows(m, e, text);
      case Other => OtherShows(m, e, bytes);
      case _ =>
        if |bytes| == 1 {
          assert bytes == [bytes[0]];
          ControlShows(m, e, key, bytes[0]);
        } else {
          SequenceShows(m, e, key, bytes);
        }
    }
  }

  /** The editor after the first `n` keys, and the lines submitted. */
  function Played(e: Editor, keys: seq<Key>, n: nat): (Editor, seq<Submitted>)
    requires n <= |keys|
  {
    if n == 0 then (e, [])
    else
      var (f, lines) := Played(e, keys, n - 1);
      var (g, more) := Press(f, keys[n - 1]);
      (g, lines + more)
  }

  /** What the first `n` keys send. */
  function Wire(sent: seq<seq<Byte>>, n: nat): seq<Byte>
    requires n <= |sent|
  {
    if n == 0 then [] else Wire(sent, n - 1) + sent[n - 1]
  }

  ghost predicate SentAt(keys: seq<Key>, sent: seq<seq<Byte>>, i: nat)
    requires i < |keys| == |sent|
  {
    Sends(keys[i], sent[i])
  }

  ghost predicate SentAs(keys: seq<Key>, sent: seq<seq<Byte>>) {
    |keys| == |sent| && forall i :: 0 <= i < |keys| ==> SentAt(keys, sent, i)
  }

  lemma OneMoreKey(m: Mirror, p: (Editor, seq<Submitted>), a: seq<Byte>, key: Key, b: seq<Byte>)
    requires Valid(m) && Follows(Feed(m, a), p) && Sends(key, b)
    ensures Follows(Feed(m, a + b), (Press(p.0, key).0, p.1 + Press(p.0, key).1))
  {
    FeedConcat(m, a, b);
    KeyShows(Feed(m, a).0, p.0, key, b);
  }

  /**
   Over every key sequence, however each key is sent, the mirror holds the editor's
   line, caret and doubt, and has submitted the editor's lines.
   */
  lemma {:induction false} MirrorIsTheEditor(m: Mirror, e: Editor, keys: seq<Key>, sent: seq<seq<Byte>>, n: nat)
    requires Shows(m, e) && SentAs(keys, sent) && n <= |keys|
    ensures Valid(m) && Follows(Feed(m, Wire(sent, n)), Played(e, keys, n))
  {
    if n > 0 {
      MirrorIsTheEditor(m, e, keys, sent, n - 1);
      assert SentAt(keys, sent, n - 1);
      OneMoreKey(m, Played(e, keys, n - 1), Wire(sent, n - 1), keys[n - 1], sent[n - 1]);
    }
  }

  lemma FreshShowsBlank()
    ensures Shows(LineMirror.Fresh, Blank)
  {}

  /** The mirror vouches for exactly the text before the caret, when nothing is after it and nothing was lost. */
  lemma ComposingExactly(m: Mirror, e: Editor, keys: seq<Key>, sent: seq<seq<Byte>>)
    requires Shows(m, e) && SentAs(keys, sent)
    ensures var f := Played(e, keys, |keys|).0;
            Valid(m) && Composing(Feed(m, Wire(sent, |keys|)).0)
                        == if f.lost || f.after != [] then None else Some(f.before)
  {
    MirrorIsTheEditor(m, e, keys, sent, |keys|);
    ShownIsComposed(Feed(m, Wire(sent, |keys|)).0, Played(e, keys, |keys|).0);
  }

  lemma ShownIsComposed(m: Mirror, e: Editor)
    requires Shows(m, e)
    ensures Composing(m) == if e.lost || e.after != [] then None else Some(e.before)
  {
    assert e.after == [] ==> Line(e) == e.before;
  }

  /** How many characters the key puts in. */
  function Width(key: Key): nat {
    match key
    case Type(_) => 1
    case Paste(text) => |text|
    case _ => 0
  }

  /** The key is none the editor knows, or puts in more than the line holds. */
  predicate Loses(e: Editor, key: Key) {
    key.Other? || (Width(key) > 0 && |Line(e)| + Width(key) > 16384)
  }

  predicate Ends(key: Key) { key.Submit? || key.Interrupt? }

  lemma {:induction false} PutAllFits(e: Editor, text: seq<char>)
    requires |Line(e)| <= 16384
    ensures var f := PutAll(e, text);
            && |Line(f)| <= 16384 && f.after == e.after
            && (f.lost <==> e.lost || |Line(e)| + |text| > 16384)
    decreases |text|
  {
    if text != [] {
      PutAllFits(Put(e, if text[0] == '\r' then '\n' else text[0]), text[1..]);
    }
  }

  lemma PressLoses(e: Editor, key: Key)
    requires |Line(e)| <= 16384
    ensures |Line(Press(e, key).0)| <= 16384
    ensures Press(e, key).0.lost <==> Loses(e, key) || (e.lost && !Ends(key))
  {
    if key.Paste? {
      PutAllFits(e, key.text);
    }
  }

  /** Key `i` lost the line, and up to key `n` it was neither submitted nor interrupted. */
  predicate LostAt(keys: seq<Key>, i: nat, n: nat)
    requires i < n <= |keys|
  {
    Loses(Played(Blank, keys, i).0, keys[i]) && forall j :: i < j < n ==> !Ends(keys[j])
  }

  lemma LostBefore(keys: seq<Key>, i: nat, n: nat)
    requires i + 1 < n <= |keys|
    ensures LostAt(keys, i, n) <==> LostAt(keys, i, n - 1) && !Ends(keys[n - 1])
  {}

  /** A line is lost exactly when some key since the last submit or interrupt lost it. */
  lemma {:induction false} LostExactly(keys: seq<Key>, n: nat)
    requires n <= |keys|
    ensures |Line(Played(Blank, keys, n).0)| <= 16384
    ensures Played(Blank, keys, n).0.lost <==> exists i :: 0 <= i < n && LostAt(keys, i, n)
  {
    if n > 0 {
      LostExactly(keys, n - 1);
      var e := Played(Blank, keys, n - 1).0;
      PressLoses(e, keys[n - 1]);
      assert Played(Blank, keys, n).0 == Press(e, keys[n - 1]).0;
      if Loses(e, keys[n - 1]) {
        assert LostAt(keys, n - 1, n);
      } else if e.lost && !Ends(keys[n - 1]) {
        var i :| 0 <= i < n - 1 && LostAt(keys, i, n - 1);
        assert LostAt(keys, i, n);
      } else {
        forall i | 0 <= i < n
          ensures !LostAt(keys, i, n)
        {
          if i < n - 1 {
            LostBefore(keys, i, n);
          }
        }
      }
    }
  }

  /**
   The mirror is tainted exactly when some key since the last submit or interrupt is
   none of the editor's, or overflowed the line.
   */
  lemma TaintedExactly(keys: seq<Key>, sent: seq<seq<Byte>>)
    requires SentAs(keys, sent)
    ensures Feed(LineMirror.Fresh, Wire(sent, |keys|)).0.tainted <==>
            exists i :: 0 <= i < |keys| && LostAt(keys, i, |keys|)
  {
    FreshShowsBlank();
    MirrorIsTheEditor(LineMirror.Fresh, Blank, keys, sent, |keys|);
    LostExactly(keys, |keys|);
  }
}
