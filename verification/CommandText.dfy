/** The text rules of command capture: what may be recorded, and where a prompt ends. */
module CommandText {
  import opened Chars
  import opened Options

  /** Upper bound on a recorded command, in UTF-8 bytes. */
  const MAX_COMMAND: nat := 4096

  function Utf8Width(c: char): nat {
    var n := c as int;
    if n < 0x80 then 1 else if n < 0x800 then 2 else if n < 0x10000 then 3 else 4
  }

  function ByteLength(s: seq<char>): nat {
    if s == [] then 0 else Utf8Width(s[0]) + ByteLength(s[1..])
  }

  function TrimStart(s: seq<char>): seq<char> {
    if s != [] && IsWhitespace(s[0]) then TrimStart(s[1..]) else s
  }

  function TrimEnd(s: seq<char>): seq<char> {
    if s != [] && IsWhitespace(s[|s| - 1]) then TrimEnd(s[..|s| - 1]) else s
  }

  function Trim(s: seq<char>): seq<char> { TrimEnd(TrimStart(s)) }

  /** Control characters, but for tab and newline. */
  predicate Refused(c: char) { IsControl(c) && c != '\t' && c != '\n' }

  /** The last gate before a command is stored. */
  function Sanitize(text: seq<char>): (r: Option<seq<char>>)
    ensures r.Some? ==> Storable(r.value)
  {
    if text != [] && text[0] == ' ' then None
    else
      var trimmed := Trim(text);
      TrimHasNoBlankEnds(text);
      if trimmed == [] || ByteLength(trimmed) > MAX_COMMAND then None
      else if exists i :: 0 <= i < |trimmed| && Refused(trimmed[i]) then None
      else Some(trimmed)
  }

  /** What every stored command is: trimmed, bounded, and free of control characters but tab and newline. */
  predicate Storable(cmd: seq<char>) {
    && cmd != []
    && !IsWhitespace(cmd[0]) && !IsWhitespace(cmd[|cmd| - 1])
    && ByteLength(cmd) <= MAX_COMMAND
    && forall i :: 0 <= i < |cmd| && IsControl(cmd[i]) ==> cmd[i] == '\t' || cmd[i] == '\n'
  }

  lemma {:induction false} TrimStartHasNoBlankStart(s: seq<char>)
    ensures TrimStart(s) != [] ==> !IsWhitespace(TrimStart(s)[0])
    ensures |TrimStart(s)| <= |s| && TrimStart(s) == s[|s| - |TrimStart(s)|..]
  {
    if s != [] && IsWhitespace(s[0]) {
      TrimStartHasNoBlankStart(s[1..]);
    }
  }

  lemma {:induction false} TrimEndHasNoBlankEnd(s: seq<char>)
    ensures TrimEnd(s) != [] ==> !IsWhitespace(TrimEnd(s)[|TrimEnd(s)| - 1])
    ensures TrimEnd(s) <= s
  {
    if s != [] && IsWhitespace(s[|s| - 1]) {
      TrimEndHasNoBlankEnd(s[..|s| - 1]);
    }
  }

  lemma TrimHasNoBlankEnds(s: seq<char>)
    ensures var t := Trim(s); t != [] ==> !IsWhitespace(t[0]) && !IsWhitespace(t[|t| - 1])
  {
    TrimStartHasNoBlankStart(s);
    TrimEndHasNoBlankEnd(TrimStart(s));
  }

  /** Storing is idempotent: a stored command passes the gate unchanged. */
  lemma StorableIsKept(cmd: seq<char>)
    ensures Storable(cmd) <==> Sanitize(cmd) == Some(cmd)
  {
    if Storable(cmd) {
      assert IsWhitespace(' ');
    }
  }

  predicate AllBlank(s: seq<char>) { forall i :: 0 <= i < |s| ==> IsWhitespace(s[i]) }

  lemma {:induction false} TrimStartDropsBlanks(s: seq<char>)
    ensures |TrimStart(s)| <= |s| && AllBlank(s[..|s| - |TrimStart(s)|])
  {
    if s != [] && IsWhitespace(s[0]) {
      TrimStartDropsBlanks(s[1..]);
      var n := |s| - |TrimStart(s)|;
      assert forall i :: 0 < i < n ==> s[..n][i] == s[1..][..n - 1][i - 1];
    }
  }

  lemma {:induction false} TrimEndDropsBlanks(s: seq<char>)
    ensures |TrimEnd(s)| <= |s| && AllBlank(s[|TrimEnd(s)|..])
  {
    if s != [] && IsWhitespace(s[|s| - 1]) {
      var front := s[..|s| - 1];
      TrimEndDropsBlanks(front);
      var n := |TrimEnd(s)|;
      assert forall i :: 0 <= i < |s| - 1 - n ==> s[n..][i] == front[n..][i];
    }
  }

  /** Trimming drops blanks at both ends and nothing else. */
  lemma TrimIsTheCore(s: seq<char>) returns (i: nat, j: nat)
    ensures i <= j <= |s| && Trim(s) == s[i..j] && AllBlank(s[..i]) && AllBlank(s[j..])
    ensures i < j ==> !IsWhitespace(s[i]) && !IsWhitespace(s[j - 1])
  {
    var tail := TrimStart(s);
    TrimStartHasNoBlankStart(s);
    TrimStartDropsBlanks(s);
    TrimEndHasNoBlankEnd(tail);
    TrimEndDropsBlanks(tail);
    TrimHasNoBlankEnds(s);
    i := |s| - |tail|;
    j := i + |Trim(s)|;
    assert s[j..] == tail[|Trim(s)|..];
  }

  /**
   The gate, exactly: a text gives a command if and only if it does not start with
   a space and, trimmed, is not empty, at most 4096 bytes and free of control
   characters but tab and newline; the command is the trimmed text.
   */
  lemma SanitizeExactly(text: seq<char>, cmd: seq<char>)
    ensures Sanitize(text) == Some(cmd) <==>
            && (text == [] || text[0] != ' ') && cmd == Trim(text)
            && cmd != [] && ByteLength(cmd) <= 4096
            && forall i :: 0 <= i < |cmd| && IsControl(cmd[i]) ==> cmd[i] == '\t' || cmd[i] == '\n'
  {
    TrimHasNoBlankEnds(text);
  }

  // ----- The classic prompt -----

  const MARKERS: seq<char> := ['$', '#', '%', '\U{276F}', '\U{279C}']

  /** A prompt terminator starts at `i`: one of the markers, or `>` on a PowerShell line, then a space. */
  predicate MarkerAt(line: seq<char>, i: nat) {
    && i + 1 < |line| && line[i + 1] == ' '
    && (line[i] in MARKERS || (line[i] == '>' && |line| >= 3 && line[..3] == "PS "))
  }

  function FirstMarker(line: seq<char>, from: nat): (r: Option<nat>)
    requires from <= |line|
    ensures r.Some? ==> from <= r.value && MarkerAt(line, r.value)
    ensures forall i :: from <= i < (if r.Some? then r.value else |line|) ==> !MarkerAt(line, i)
    decreases |line| - from
  {
    if from == |line| then None
    else if MarkerAt(line, from) then Some(from)
    else FirstMarker(line, from + 1)
  }

  /** What follows the earliest prompt terminator. */
  function StripPrompt(line: seq<char>): (r: Option<seq<char>>)
    ensures r.None? <==> forall i :: 0 <= i < |line| ==> !MarkerAt(line, i)
    ensures r.Some? ==> exists i :: 0 <= i && MarkerAt(line, i) && r.value == line[i + 2..]
                                    && forall j :: 0 <= j < i ==> !MarkerAt(line, j)
  {
    match FirstMarker(line, 0)
    case None => None
    case Some(i) => Some(line[i + 2..])
  }

  /** Prompts it knows, one it does not, and the first of two. */
  lemma PromptsAreRead()
    ensures StripPrompt("h# a$ b") == Some("a$ b") && StripPrompt("h% ls") == Some("ls")
    ensures StripPrompt("h\U{276F} ls") == Some("ls") && StripPrompt("h\U{279C} ls") == Some("ls")
  {
    PromptAt("h# a$ b", 1);
    PromptAt("h% ls", 1);
    PromptAt("h\U{276F} ls", 1);
    PromptAt("h\U{279C} ls", 1);
    assert "h# a$ b"[3..] == "a$ b" && "h% ls"[3..] == "ls";
    assert "h\U{276F} ls"[3..] == "ls" && "h\U{279C} ls"[3..] == "ls";
  }

  /** A `>` ends a prompt on a PowerShell line and on no other. */
  lemma PowerShellPromptIsRead()
    ensures StripPrompt("PS C> ls") == Some("ls") && StripPrompt("m> ls") == None
  {
    assert "PS C> ls"[..3] == "PS ";
    PromptAt("PS C> ls", 4);
    assert "PS C> ls"[6..] == "ls";
    assert "m> ls"[..3][0] == 'm';
    assert forall i :: 0 <= i < |"m> ls"| ==> !MarkerAt("m> ls", i);
  }

  /** What follows the earliest terminator, found by looking. */
  lemma PromptAt(line: seq<char>, i: nat)
    requires MarkerAt(line, i) && forall j :: 0 <= j < i ==> !MarkerAt(line, j)
    ensures StripPrompt(line) == Some(line[i + 2..])
  {}
}
