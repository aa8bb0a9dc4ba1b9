/** The input tracker as the source runs it: one mutable object fed byte by byte. */
module InputTracker {
  import opened Chars
  import opened Options
  import opened Utf8
  import opened LineMirror

  class Tracker {
    var chars: seq<char>
    var cursor: nat
    var tainted: bool
    var scan: Scan
    var params: seq<Byte>
    var inPaste: bool
    var pending: seq<Byte>

    function Now(): Mirror
      reads this
    {
      Mirror(chars, cursor, tainted, scan, params, inPaste, pending)
    }

    predicate Ok()
      reads this
    {
      Valid(Now())
    }

    constructor ()
      ensures Ok() && Now() == Fresh
    {
      chars, cursor, tainted, scan, params, inPaste, pending := [], 0, false, Ground, [], false, [];
    }

    method ComposingLine() returns (line: Option<seq<char>>)
      ensures line == Composing(Now())
    {
      if tainted || inPaste || |pending| != 0 || cursor != |chars| {
        return None;
      }
      line := Some(chars);
    }

    method InsertChar(c: char)
      requires cursor <= |chars|
      modifies this`chars, this`cursor, this`tainted
      ensures Now() == Insert(old(Now()), c)
    {
      if |chars| >= MAX_LINE {
        tainted := true;
        return;
      }
      chars := chars[..cursor] + [c] + chars[cursor..];
      cursor := cursor + 1;
    }

    method TryFlush()
      requires cursor <= |chars| && pending != []
      requires |pending| <= Need(pending[0]) || Need(pending[0]) == 0
      requires forall i :: 0 < i < |pending| ==> IsContinuation(pending[i])
      modifies this`chars, this`cursor, this`tainted, this`pending
      ensures Now() == Flush(old(Now()))
    {
      var need := Need(pending[0]);
      if need == 0 {
        pending := [];
        return;
      }
      if |pending| < need {
        return;
      }
      var decoded := Decode(pending);
      if decoded.Some? {
        InsertChar(decoded.value);
      }
      pending := [];
    }

    method AddText(b: Byte)
      requires Ok() && pending == []
      modifies this`chars, this`cursor, this`tainted, this`pending
      ensures Now() == TextByte(old(Now()), b)
    {
      if b < 0x80 {
        InsertChar(b as char);
      } else {
        pending := [b];
        TryFlush();
      }
    }

    method Clear()
      modifies this`chars, this`cursor, this`tainted
      ensures Now() == ClearLine(old(Now()))
    {
      chars, cursor, tainted := [], 0, false;
    }

    /** Kill the blank-delimited word before the caret. */
    method KillWord()
      requires Ok()
      modifies this`chars, this`cursor
      ensures var i := WordStart(old(chars), SkipBlanksBack(old(chars), old(cursor)));
              Now() == old(Now()).(chars := old(chars)[..i] + old(chars)[old(cursor)..], cursor := i)
    {
      var i: nat := cursor;
      while i > 0 && IsWhitespace(chars[i - 1])
        invariant i <= cursor && SkipBlanksBack(chars, i) == SkipBlanksBack(chars, cursor)
      {
        i := i - 1;
      }
      ghost var blank: nat := i;
      while i > 0 && !IsWhitespace(chars[i - 1])
        invariant i <= blank && WordStart(chars, i) == WordStart(chars, blank)
      {
        i := i - 1;
      }
      chars := chars[..i] + chars[cursor..];
      cursor := i;
    }

    method SwapChars()
      requires Ok()
      modifies this`chars, this`cursor
      ensures Now() == LineMirror.Transpose(old(Now()))
    {
      var n := |chars|;
      if cursor == n && n >= 2 {
        chars := chars[n - 2 := chars[n - 1]][n - 1 := chars[n - 2]];
      } else if 0 < cursor < n {
        chars := chars[cursor - 1 := chars[cursor]][cursor := chars[cursor - 1]];
        cursor := cursor + 1;
      }
    }

    method Edit(b: Byte) returns (lines: seq<Submitted>)
      requires Ok() && pending == []
      modifies this
      ensures (Now(), lines) == Command(old(Now()), b)
    {
      lines := [];
      if b == 0x0D || b == 0x0A {
        lines := [Submitted(chars, tainted)];
        Clear();
      } else if b == 0x1B {
        scan := Esc;
      } else if b == 0x7F || b == 0x08 {
        if cursor > 0 {
          cursor := cursor - 1;
          chars := chars[..cursor] + chars[cursor + 1..];
        }
      } else if b == 0x09 {
        tainted := true;
      } else if b == 0x01 {
        cursor := 0;
      } else if b == 0x05 {
        cursor := |chars|;
      } else if b == 0x02 {
        cursor := if cursor > 0 then cursor - 1 else 0;
      } else if b == 0x06 {
        cursor := if cursor + 1 < |chars| then cursor + 1 else |chars|;
      } else if b == 0x03 {
        Clear();
      } else if b == 0x04 {
        if cursor < |chars| {
          chars := chars[..cursor] + chars[cursor + 1..];
        }
      } else if b == 0x15 {
        chars := chars[cursor..];
        cursor := 0;
      } else if b == 0x0B {
        chars := chars[..cursor];
      } else if b == 0x17 {
        KillWord();
      } else if b == 0x14 {
        SwapChars();
      } else if b == 0x0C {
      } else if b < 0x20 {
        tainted := true;
      } else {
        AddText(b);
      }
    }

    method GroundByte(b: Byte) returns (lines: seq<Submitted>)
      requires Ok()
      modifies this
      ensures (Now(), lines) == OnGround(old(Now()), b)
    {
      lines := [];
      if |pending| != 0 {
        if IsContinuation(b) {
          pending := pending + [b];
          TryFlush();
          return;
        }
        pending := [];
      }
      if inPaste {
        if b == 0x0D || b == 0x0A {
          InsertChar('\n');
        } else if b == 0x1B {
          scan := Esc;
        } else {
          AddText(b);
        }
        return;
      }
      lines := Edit(b);
    }

    method EscByte(b: Byte)
      modifies this`params, this`scan, this`tainted
      ensures Now() == OnEsc(old(Now()), b)
    {
      if b == '[' as int {
        params, scan := [], Csi;
      } else if b == 'O' as int {
        scan := Ss3;
      } else if b != 0x1B {
        tainted, scan := true, Ground;
      }
    }

    method CsiByte(b: Byte)
      requires Ok()
      modifies this
      ensures Now() == OnCsi(old(Now()), b)
    {
      if 0x20 <= b <= 0x3F {
        if |params| < 16 {
          params := params + [b];
        } else {
          tainted, scan := true, Ground;
        }
        return;
      }
      if !(0x40 <= b <= 0x7E) {
        tainted, scan := true, Ground;
        return;
      }
      var p := params;
      params, scan := [], Ground;
      if inPaste {
        if b == '~' as int && p == PASTE_OFF {
          inPaste := false;
        } else {
          tainted := true;
        }
        return;
      }
      if b == 'D' as int && p == [] {
        cursor := if cursor > 0 then cursor - 1 else 0;
      } else if b == 'C' as int && p == [] {
        cursor := if cursor + 1 < |chars| then cursor + 1 else |chars|;
      } else if (b == 'H' as int && p == []) || (b == '~' as int && (p == [49] || p == [55])) {
        cursor := 0;
      } else if (b == 'F' as int && p == []) || (b == '~' as int && (p == [52] || p == [56])) {
        cursor := |chars|;
      } else if b == '~' as int && p == [51] {
        if cursor < |chars| {
          chars := chars[..cursor] + chars[cursor + 1..];
        }
      } else if b == '~' as int && p == PASTE_ON {
        inPaste := true;
      } else {
        tainted := true;
      }
    }

    method Ss3Byte(b: Byte)
      requires Ok()
      modifies this`scan, this`cursor, this`tainted
      ensures Now() == OnSs3(old(Now()), b)
    {
      scan := Ground;
      if b == 'D' as int {
        cursor := if cursor > 0 then cursor - 1 else 0;
      } else if b == 'C' as int {
        cursor := if cursor + 1 < |chars| then cursor + 1 else |chars|;
      } else if b == 'H' as int {
        cursor := 0;
      } else if b == 'F' as int {
        cursor := |chars|;
      } else {
        tainted := true;
      }
    }

    method FeedByte(b: Byte) returns (lines: seq<Submitted>)
      requires Ok()
      modifies this
      ensures Ok() && (Now(), lines) == Step(old(Now()), b)
    {
      StepKeepsValid(Now(), b);
      lines := [];
      match scan {
        case Ground => lines := GroundByte(b);
        case Esc => EscByte(b);
        case Csi => CsiByte(b);
        case Ss3 => Ss3Byte(b);
      }
    }

    /** Feed bytes headed to the shell; the lines they submit, in order. */
    method Feed(bytes: seq<Byte>) returns (submitted: seq<Submitted>)
      requires Ok()
      modifies this
      ensures Ok() && (Now(), submitted) == LineMirror.Feed(old(Now()), bytes)
    {
      submitted := [];
      assert bytes[0..] == bytes;
      for i := 0 to |bytes|
        invariant Ok()
        invariant LineMirror.Feed(old(Now()), bytes).0 == LineMirror.Feed(Now(), bytes[i..]).0
        invariant LineMirror.Feed(old(Now()), bytes).1 == submitted + LineMirror.Feed(Now(), bytes[i..]).1
      {
        assert bytes[i..][1..] == bytes[i + 1..];
        var lines := FeedByte(bytes[i]);
        ghost var rest := LineMirror.Feed(Now(), bytes[i + 1..]).1;
        assert submitted + (lines + rest) == submitted + lines + rest;
        submitted := submitted + lines;
      }
      assert bytes[|bytes|..] == [];
      assert submitted + [] == submitted;
    }
  }
}
