/**
 The mirror of the remote line editor: what each byte sent to the shell does to
 the line being composed, as far as this side can know.
 */
module LineMirror {
  import opened Chars
  import opened Options
  import opened Utf8

  const MAX_LINE: nat := 16 * 1024

  datatype Scan = Ground | Esc | Csi | Ss3

  datatype Submitted = Submitted(text: seq<char>, tainted: bool)

  datatype Mirror = Mirror(
    chars: seq<char>,
    cursor: nat,
    tainted: bool,
    scan: Scan,
    params: seq<Byte>,
    inPaste: bool,
    pending: seq<Byte>)

  const Fresh := Mirror([], 0, false, Ground, [], false, [])

  /** The caret is on the line, and a half-read scalar is one that can still complete. */
  predicate Valid(m: Mirror) {
    && m.cursor <= |m.chars|
    && (m.pending != [] ==> |m.pending| < Need(m.pending[0]))
    && (forall i :: 0 < i < |m.pending| ==> IsContinuation(m.pending[i]))
  }

  /** The line as typed, when the mirror vouches for it. */
  function Composing(m: Mirror): Option<seq<char>> {
    if m.tainted || m.inPaste || m.pending != [] || m.cursor != |m.chars| then None else Some(m.chars)
  }

  function ClearLine(m: Mirror): Mirror { m.(chars := [], cursor := 0, tainted := false) }

  function Insert(m: Mirror, c: char): Mirror
    requires m.cursor <= |m.chars|
  {
    if |m.chars| >= MAX_LINE then m.(tainted := true)
    else m.(chars := m.chars[..m.cursor] + [c] + m.chars[m.cursor..], cursor := m.cursor + 1)
  }

  function RemoveAt(m: Mirror, i: nat): Mirror
    requires i < |m.chars|
  {
    m.(chars := m.chars[..i] + m.chars[i + 1..])
  }

  /** Flush the half-read scalar if it is complete, drop it if it cannot be one. */
  function Flush(m: Mirror): Mirror
    requires m.cursor <= |m.chars| && m.pending != []
    requires |m.pending| <= Need(m.pending[0]) || Need(m.pending[0]) == 0
    requires forall i :: 0 < i < |m.pending| ==> IsContinuation(m.pending[i])
  {
    var need := Need(m.pending[0]);
    if need == 0 then m.(pending := [])
    else if |m.pending| < need then m
    else match Decode(m.pending)
      case None => m.(pending := [])
      case Some(c) => Insert(m, c).(pending := [])
  }

  function WordStart(chars: seq<char>, i: nat): (r: nat)
    requires i <= |chars|
    ensures r <= i
  {
    if i > 0 && !IsWhitespace(chars[i - 1]) then WordStart(chars, i - 1) else i
  }

  function SkipBlanksBack(chars: seq<char>, i: nat): (r: nat)
    requires i <= |chars|
    ensures r <= i
  {
    if i > 0 && IsWhitespace(chars[i - 1]) then SkipBlanksBack(chars, i - 1) else i
  }

  function Right(m: Mirror): Mirror { if m.cursor < |m.chars| then m.(cursor := m.cursor + 1) else m }

  function Left(m: Mirror): Mirror { if m.cursor > 0 then m.(cursor := m.cursor - 1) else m }

  function DeleteUnder(m: Mirror): Mirror { if m.cursor < |m.chars| then RemoveAt(m, m.cursor) else m }

  function Transpose(m: Mirror): Mirror
    requires m.cursor <= |m.chars|
  {
    var n := |m.chars|;
    if m.cursor == n && n >= 2 then m.(chars := m.chars[n - 2 := m.chars[n - 1]][n - 1 := m.chars[n - 2]])
    else if 0 < m.cursor < n then
      m.(chars := m.chars[m.cursor - 1 := m.chars[m.cursor]][m.cursor := m.chars[m.cursor - 1]], cursor := m.cursor + 1)
    else m
  }

  /** A byte that is text, or the start or middle of text. */
  function TextByte(m: Mirror, b: Byte): Mirror
    requires Valid(m) && m.pending == []
  {
    if b < 0x80 then Insert(m, b as char) else Flush(m.(pending := [b]))
  }

  /** One byte read as an editing command or as text. */
  function Command(m: Mirror, b: Byte): (Mirror, seq<Submitted>)
    requires Valid(m) && m.pending == []
  {
    if b == 0x0D || b == 0x0A then (ClearLine(m), [Submitted(m.chars, m.tainted)])
    else if b == 0x1B then (m.(scan := Esc), [])
    else if b == 0x7F || b == 0x08 then
      (if m.cursor > 0 then RemoveAt(m, m.cursor - 1).(cursor := m.cursor - 1) else m, [])
    else if b == 0x09 then (m.(tainted := true), [])
    else if b == 0x01 then (m.(cursor := 0), [])
    else if b == 0x05 then (m.(cursor := |m.chars|), [])
    else if b == 0x02 then (Left(m), [])
    else if b == 0x06 then (Right(m), [])
    else if b == 0x03 then (ClearLine(m), [])
    else if b == 0x04 then (DeleteUnder(m), [])
    else if b == 0x15 then (m.(chars := m.chars[m.cursor..], cursor := 0), [])
    else if b == 0x0B then (m.(chars := m.chars[..m.cursor]), [])
    else if b == 0x17 then
      var i := WordStart(m.chars, SkipBlanksBack(m.chars, m.cursor));
      (m.(chars := m.chars[..i] + m.chars[m.cursor..], cursor := i), [])
    else if b == 0x14 then (Transpose(m), [])
    else if b == 0x0C then (m, [])
    else if b < 0x20 then (m.(tainted := true), [])
    else (TextByte(m, b), [])
  }

  /** One byte inside a bracketed paste: text, whatever it is; only ESC is looked at. */
  function Pasted(m: Mirror, b: Byte): Mirror
    requires Valid(m) && m.pending == []
  {
    if b == 0x0D || b == 0x0A then Insert(m, '\n')
    else if b == 0x1B then m.(scan := Esc)
    else TextByte(m, b)
  }

  function OnGround(m: Mirror, b: Byte): (Mirror, seq<Submitted>)
    requires Valid(m)
  {
    if m.pending != [] && IsContinuation(b) then (Flush(m.(pending := m.pending + [b])), [])
    else
      var clean := m.(pending := []);
      if m.inPaste then (Pasted(clean, b), []) else Command(clean, b)
  }

  function OnEsc(m: Mirror, b: Byte): Mirror {
    if b == '[' as int then m.(params := [], scan := Csi)
    else if b == 'O' as int then m.(scan := Ss3)
    else if b == 0x1B then m
    else m.(tainted := true, scan := Ground)
  }

  const PASTE_ON: seq<Byte> := [50, 48, 48]
  const PASTE_OFF: seq<Byte> := [50, 48, 49]

  function FinishCsi(m: Mirror, b: Byte): Mirror {
    var p, g := m.params, m.(params := [], scan := Ground);
    if m.inPaste then
      if b == '~' as int && p == PASTE_OFF then g.(inPaste := false) else g.(tainted := true)
    else if b == 'D' as int && p == [] then Left(g)
    else if b == 'C' as int && p == [] then Right(g)
    else if (b == 'H' as int && p == []) || (b == '~' as int && (p == [49] || p == [55])) then g.(cursor := 0)
    else if (b == 'F' as int && p == []) || (b == '~' as int && (p == [52] || p == [56])) then g.(cursor := |g.chars|)
    else if b == '~' as int && p == [51] then DeleteUnder(g)
    else if b == '~' as int && p == PASTE_ON then g.(inPaste := true)
    else g.(tainted := true)
  }

  function OnCsi(m: Mirror, b: Byte): Mirror {
    if 0x20 <= b <= 0x3F then
      if |m.params| < 16 then m.(params := m.params + [b]) else m.(tainted := true, scan := Ground)
    else if 0x40 <= b <= 0x7E then FinishCsi(m, b)
    else m.(tainted := true, scan := Ground)
  }

  function OnSs3(m: Mirror, b: Byte): Mirror {
    var g := m.(scan := Ground);
    if b == 'D' as int then Left(g)
    else if b == 'C' as int then Right(g)
    else if b == 'H' as int then g.(cursor := 0)
    else if b == 'F' as int then g.(cursor := |g.chars|)
    else g.(tainted := true)
  }

  /** One byte sent to the shell. */
  function Step(m: Mirror, b: Byte): (Mirror, seq<Submitted>)
    requires Valid(m)
  {
    match m.scan
    case Ground => OnGround(m, b)
    case Esc => (OnEsc(m, b), [])
    case Csi => (OnCsi(m, b), [])
    case Ss3 => (OnSs3(m, b), [])
  }

  lemma TextByteKeepsValid(m: Mirror, b: Byte)
    requires Valid(m) && m.pending == []
    ensures Valid(TextByte(m, b))
  {}

  lemma TransposeKeepsValid(m: Mirror)
    requires Valid(m)
    ensures Valid(Transpose(m))
  {}

  lemma CommandKeepsValid(m: Mirror, b: Byte)
    requires Valid(m) && m.pending == []
    ensures Valid(Command(m, b).0)
  {
    if b == 0x14 {
      TransposeKeepsValid(m);
    } else if b >= 0x20 && b != 0x7F {
      TextByteKeepsValid(m, b);
    }
  }

  lemma OnGroundKeepsValid(m: Mirror, b: Byte)
    requires Valid(m)
    ensures Valid(OnGround(m, b).0)
  {
    if m.pending == [] || !IsContinuation(b) {
      var clean := m.(pending := []);
      CommandKeepsValid(clean, b);
      if b != 0x0D && b != 0x0A && b != 0x1B {
        TextByteKeepsValid(clean, b);
      }
    }
  }

  lemma StepKeepsValid(m: Mirror, b: Byte)
    requires Valid(m)
    ensures Valid(Step(m, b).0)
  {
    if m.scan.Ground? {
      OnGroundKeepsValid(m, b);
    }
  }

  /** Every byte of a write, in order, with the lines submitted on the way. */
  function Feed(m: Mirror, bytes: seq<Byte>): (r: (Mirror, seq<Submitted>))
    requires Valid(m)
    ensures Valid(r.0)
    decreases |bytes|
  {
    if bytes == [] then (m, [])
    else
      StepKeepsValid(m, bytes[0]);
      var (n, lines) := Step(m, bytes[0]);
      var (o, more) := Feed(n, bytes[1..]);
      (o, lines + more)
  }

  lemma {:induction false} FeedConcat(m: Mirror, a: seq<Byte>, b: seq<Byte>)
    requires Valid(m)
    ensures Feed(m, a + b).0 == Feed(Feed(m, a).0, b).0
    ensures Feed(m, a + b).1 == Feed(m, a).1 + Feed(Feed(m, a).0, b).1
    decreases |a|
  {
    if a == [] {
      assert a + b == b;
    } else {
      StepKeepsValid(m, a[0]);
      assert (a + b)[1..] == a[1..] + b;
      var (n, lines) := Step(m, a[0]);
      FeedConcat(n, a[1..], b);
      assert lines + (Feed(n, a[1..]).1 + Feed(Feed(n, a[1..]).0, b).1)
          == lines + Feed(n, a[1..]).1 + Feed(Feed(n, a[1..]).0, b).1;
    }
  }

  lemma FeedOne(m: Mirror, b: Byte)
    requires Valid(m)
    ensures Feed(m, [b]) == Step(m, b)
  {
    StepKeepsValid(m, b);
    assert [b][1..] == [];
    assert Step(m, b).1 + [] == Step(m, b).1;
  }

  /** A scalar beyond ASCII arrives byte by byte and is inserted whole, in a paste or out of one. */
  lemma FeedScalar(m: Mirror, c: char)
    requires Valid(m) && m.scan.Ground? && m.pending == [] && c as int >= 0x80
    ensures Feed(m, Encode(c)) == (Insert(m, c), [])
  {
    DecodeEncode(c);
    FeedSequence(m, Encode(c), c);
  }

  lemma FeedSequence(m: Mirror, b: seq<Byte>, c: char)
    requires Valid(m) && m.scan.Ground? && m.pending == []
    requires 2 <= |b| <= 4 && Need(b[0]) == |b| && (forall i :: 0 < i < |b| ==> IsContinuation(b[i]))
    requires Decode(b) == Some(c)
    ensures Feed(m, b) == (Insert(m, c), [])
  {
    var started := m.(pending := [b[0]]);
    assert b[..1] == [b[0]] && [b[0]] + b[1..] == b;
    FeedOne(m, b[0]);
    assert Step(m, b[0]) == (started, []);
    FeedRest(m, started, b, 1, c);
    FeedConcat(m, [b[0]], b[1..]);
  }

  lemma {:induction false} FeedRest(m: Mirror, part: Mirror, b: seq<Byte>, n: nat, c: char)
    requires Valid(m) && m.scan.Ground? && m.pending == []
    requires 1 <= n < |b| <= 4 && Need(b[0]) == |b|
    requires forall i :: 0 < i < |b| ==> IsContinuation(b[i])
    requires Decode(b) == Some(c) && part == m.(pending := b[..n])
    ensures Valid(part)
    ensures Feed(part, b[n..]) == (Insert(m, c), [])
    decreases |b| - n
  {
    var grown := m.(pending := b[..n + 1]);
    assert b[..n] + [b[n]] == b[..n + 1];
    assert b[n..][1..] == b[n + 1..];
    StepKeepsValid(part, b[n]);
    var none: seq<Submitted> := [];
    assert none + none == none;
    if n + 1 < |b| {
      assert Step(part, b[n]) == (grown, none);
      FeedRest(m, grown, b, n + 1, c);
    } else {
      assert b[..n + 1] == b && b[n + 1..] == [];
      assert Step(part, b[n]) == (Insert(grown, c).(pending := []), none);
      assert Feed(part, b[n..]).0 == Insert(grown, c).(pending := []);
    }
  }
}
