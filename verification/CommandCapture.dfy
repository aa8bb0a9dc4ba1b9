/**
 Command capture over whole runs of a pane: keystrokes, shell-integration marks
 and reconnects in any order.

 A note says what was captured and by which path. `prompts` counts the PromptEnd
 marks so far, so that a note can name the prompt that licensed it.
 */
module CommandCapture {
  import opened Options
  import opened CommandText

  datatype Pos = Pos(absLine: int, col: nat)

  datatype Prompt = NoIntegration | AtPrompt(pos: Pos) | Busy

  /** What the terminal grid shows while an event is handled; grid reads are an oracle. */
  datatype Screen = Screen(alt: bool, cursorLine: Option<seq<char>>, lines: map<Pos, seq<char>>) {
    function LineFrom(p: Pos): Option<seq<char>> {
      if p in lines then Some(lines[p]) else None
    }
  }

  /** A line the input mirror saw submitted. */
  datatype Line = Line(text: seq<char>, tainted: bool)

  datatype Mark =
    | PromptEnd(pos: Pos)
    | PromptStart
    | CommandLine(text: Option<seq<char>>)
    | OutputStart
    | CommandEnd

  datatype Kind =
    | Immediate  // read off the grid as Enter was pressed at the prompt
    | Deferred   // read off the grid when the shell confirmed the command
    | Guessed    // the echo heuristic of a host without integration
    | Reported   // the shell's own text

  datatype Note = Note(text: seq<char>, kind: Kind, prompt: nat)

  datatype State = State(
    prompt: Prompt,
    pending: Option<Pos>,
    seen: bool,
    inband: Option<seq<char>>,
    prompts: nat)

  const Fresh := State(NoIntegration, None, false, None, 0)

  // ----- Input -----

  /** What a submitted line at the prompt yields, and what is left for the shell to confirm. */
  function SubmitAtPrompt(s: State, line: Line, screen: Screen): (State, seq<Note>)
    requires s.prompt.AtPrompt?
  {
    var pos := s.prompt.pos;
    var busy := s.(prompt := Busy);
    if screen.alt then (busy, [])
    else match screen.LineFrom(pos)
      case None => (busy, [])
      case Some(text) =>
        if Trim(text) != [] then
          (busy, if Sanitize(text).Some? then [Note(Sanitize(text).value, Immediate, s.prompts)] else [])
        else if line.tainted || Trim(line.text) != [] then (busy.(pending := Some(pos)), [])
        else (busy, [])
  }

  /** The echo heuristic: the text after the prompt, when it is what was typed. */
  function Guess(s: State, line: Line, screen: Screen): seq<Note> {
    if screen.cursorLine.None? then []
    else match StripPrompt(screen.cursorLine.value)
      case None => []
      case Some(stripped) =>
        if !line.tainted && Trim(stripped) != Trim(line.text) then []
        else
          var cmd := Sanitize(if line.tainted then stripped else line.text);
          if cmd.Some? then [Note(cmd.value, Guessed, s.prompts)] else []
  }

  /** One submitted line; `guessed` says whether this write has used up its one guess. */
  function SubmitLine(s: State, line: Line, screen: Screen, guessed: bool): (State, seq<Note>, bool) {
    match s.prompt
    case AtPrompt(_) =>
      var (t, notes) := SubmitAtPrompt(s, line, screen);
      (t, notes, guessed)
    case Busy => (s, [], guessed)
    case NoIntegration =>
      if guessed || screen.alt then (s, [], guessed)
      else (s, Guess(s, line, screen), true)
  }

  function SubmitLines(s: State, lines: seq<Line>, screen: Screen, guessed: bool): (State, seq<Note>)
    decreases |lines|
  {
    if lines == [] then (s, [])
    else
      var (t, notes, g) := SubmitLine(s, lines[0], screen, guessed);
      var (u, more) := SubmitLines(t, lines[1..], screen, g);
      (u, notes + more)
  }

  /** One user write. Nothing is captured from this side once the shell reports its own lines. */
  function Input(s: State, lines: seq<Line>, locked: bool, screen: Screen): (State, seq<Note>) {
    if s.seen || !locked then (s, []) else SubmitLines(s, lines, screen, false)
  }

  // ----- Marks -----

  function Confirm(s: State, screen: Screen): (State, seq<Note>) {
    if s.inband.Some? then
      var cmd := Sanitize(s.inband.value);
      (s.(prompt := Busy, pending := None, inband := None),
       if cmd.Some? then [Note(cmd.value, Reported, s.prompts)] else [])
    else
      var text := if s.pending.Some? && !s.seen then screen.LineFrom(s.pending.value) else None;
      var cmd := if text.Some? then Sanitize(text.value) else None;
      (s.(prompt := Busy, pending := None),
       if cmd.Some? then [Note(cmd.value, Deferred, s.prompts)] else [])
  }

  function Observe(s: State, mark: Mark, screen: Screen): (State, seq<Note>) {
    match mark
    case PromptEnd(pos) => (s.(prompt := AtPrompt(pos), pending := None, inband := None, prompts := s.prompts + 1), [])
    case PromptStart => (s.(prompt := Busy, pending := None, inband := None), [])
    case CommandLine(text) => (s.(seen := true, inband := text, pending := None), [])
    case OutputStart => Confirm(s, screen)
    case CommandEnd => (s.(prompt := Busy, inband := None), [])
  }

  // ----- Runs -----

  datatype Event =
    | Wrote(lines: seq<Line>, locked: bool, screen: Screen)
    | Marked(mark: Mark, screen: Screen)
    | Reconnected

  function Step(s: State, ev: Event): (State, seq<Note>) {
    match ev
    case Wrote(lines, locked, screen) => Input(s, lines, locked, screen)
    case Marked(mark, screen) => Observe(s, mark, screen)
    case Reconnected => (s.(seen := false, inband := None), [])
  }

  function Run(evs: seq<Event>, n: nat): State
    requires n <= |evs|
  {
    if n == 0 then Fresh else Step(Run(evs, n - 1), evs[n - 1]).0
  }

  /** What event `k` of the run captures. */
  function NotesAt(evs: seq<Event>, k: nat): seq<Note>
    requires k < |evs|
  {
    Step(Run(evs, k), evs[k]).1
  }

  function Notes(evs: seq<Event>, n: nat): seq<Note>
    requires n <= |evs|
  {
    if n == 0 then [] else Notes(evs, n - 1) + NotesAt(evs, n - 1)
  }

  // ----- What every run keeps -----

  /** A deferred capture exists only while a command is running, on a pane that never reported one. */
  predicate StateOk(s: State) {
    && (s.pending.Some? ==> s.prompt.Busy? && !s.seen)
    && (s.inband.Some? ==> s.seen)
    && (s.prompt.NoIntegration? ==> s.prompts == 0)
    && (s.prompt.AtPrompt? || s.pending.Some? ==> s.prompts >= 1)
  }

  predicate Typed(note: Note) { note.kind.Immediate? || note.kind.Deferred? }

  /** The prompt mark now in force can still license a typed capture. */
  predicate Licensed(s: State) { s.prompt.AtPrompt? || s.pending.Some? }

  /** How many typed-path notes a list holds. */
  function TypedCount(notes: seq<Note>): nat {
    if notes == [] then 0 else TypedCount(notes[..|notes| - 1]) + if Typed(notes[|notes| - 1]) then 1 else 0
  }

  function Credit(s: State): nat { if Licensed(s) then 1 else 0 }

  lemma {:induction false} TypedCountConcat(a: seq<Note>, b: seq<Note>)
    ensures TypedCount(a + b) == TypedCount(a) + TypedCount(b)
  {
    if b == [] {
      assert a + b == a;
    } else {
      TypedCountConcat(a, b[..|b| - 1]);
      assert (a + b)[..|a + b| - 1] == a + b[..|b| - 1];
    }
  }

  predicate AllOfPrompt(notes: seq<Note>, prompt: nat) {
    forall i :: 0 <= i < |notes| ==> notes[i].prompt == prompt
  }

  /** One line spends the licence it uses. */
  lemma LineSpends(s: State, line: Line, screen: Screen, guessed: bool)
    requires StateOk(s) && !s.seen
    ensures var (t, notes, _) := SubmitLine(s, line, screen, guessed);
            StateOk(t) && t.prompts == s.prompts && t.seen == s.seen && t.inband == s.inband
            && TypedCount(notes) + Credit(t) <= Credit(s)
            && AllOfPrompt(notes, s.prompts)
            && (forall i :: 0 <= i < |notes| ==> !notes[i].kind.Reported?)
  {
    var (_, notes, _) := SubmitLine(s, line, screen, guessed);
    assert |notes| <= 1;
    if |notes| == 1 {
      assert notes[..0] == [];
    }
  }

  lemma {:induction false} LinesSpend(s: State, lines: seq<Line>, screen: Screen, guessed: bool)
    requires StateOk(s) && !s.seen
    ensures var (t, notes) := SubmitLines(s, lines, screen, guessed);
            StateOk(t) && t.prompts == s.prompts && t.seen == s.seen && t.inband == s.inband
            && TypedCount(notes) + Credit(t) <= Credit(s)
            && AllOfPrompt(notes, s.prompts)
            && (forall i :: 0 <= i < |notes| ==> !notes[i].kind.Reported?)
    decreases |lines|
  {
    if lines != [] {
      LineSpends(s, lines[0], screen, guessed);
      var (t, notes, g) := SubmitLine(s, lines[0], screen, guessed);
      LinesSpend(t, lines[1..], screen, g);
      TypedCountConcat(notes, SubmitLines(t, lines[1..], screen, g).1);
    }
  }

  /** Every event keeps the state consistent and spends at most the licence there is; a prompt mark renews it. */
  lemma StepSpends(s: State, ev: Event)
    requires StateOk(s)
    ensures var (t, notes) := Step(s, ev);
            StateOk(t) && AllOfPrompt(notes, s.prompts)
            && TypedCount(notes) + (if t.prompts == s.prompts then Credit(t) else 0) <= Credit(s)
            && s.prompts <= t.prompts <= s.prompts + 1
            && (t.prompts > s.prompts ==> notes == [])
  {
    if ev.Wrote? {
      if !s.seen && ev.locked {
        LinesSpend(s, ev.lines, ev.screen, false);
      }
    } else {
      var notes := Step(s, ev).1;
      if |notes| == 1 {
        assert notes[..0] == [];
      }
    }
  }

  lemma {:induction false} RunOk(evs: seq<Event>, n: nat)
    requires n <= |evs|
    ensures StateOk(Run(evs, n))
  {
    if n > 0 {
      RunOk(evs, n - 1);
      StepSpends(Run(evs, n - 1), evs[n - 1]);
    }
  }

  /** How many of the first `n` events' notes are typed captures licensed by prompt `p`. */
  function TypedFor(evs: seq<Event>, n: nat, p: nat): nat
    requires n <= |evs|
  {
    if n == 0 then 0
    else TypedFor(evs, n - 1, p) + if Run(evs, n - 1).prompts == p then TypedCount(NotesAt(evs, n - 1)) else 0
  }

  /**
   However prompts, keystrokes, output and reconnects interleave, each prompt
   mark licenses at most one typed-path capture, immediate or deferred; and no
   such capture comes without a prompt mark.
   */
  lemma {:induction false} OneTypedCapturePerPrompt(evs: seq<Event>, n: nat, p: nat)
    requires n <= |evs|
    ensures var s := Run(evs, n);
            TypedFor(evs, n, p) + (if s.prompts == p then Credit(s) else 0)
            <= (if s.prompts >= p && p > 0 then 1 else 0)
  {
    if n > 0 {
      OneTypedCapturePerPrompt(evs, n - 1, p);
      RunOk(evs, n - 1);
      StepSpends(Run(evs, n - 1), evs[n - 1]);
    }
  }

  // ----- Once the shell reports its own lines -----

  /** A pane that has reported a line, and not reconnected since, captures nothing from keystrokes. */
  lemma SeenStaysAndSilences(evs: seq<Event>, j: nat, k: nat)
    requires j < k < |evs| && evs[j].Marked? && evs[j].mark.CommandLine?
    requires forall i :: j < i < k ==> !evs[i].Reconnected?
    ensures Run(evs, k).seen
    ensures evs[k].Wrote? ==> NotesAt(evs, k) == [] && Run(evs, k + 1) == Run(evs, k)
    ensures forall i :: 0 <= i < |NotesAt(evs, k)| ==> NotesAt(evs, k)[i].kind.Reported?
  {
    SeenStays(evs, j, k);
    RunOk(evs, k);
  }

  lemma {:induction false} SeenStays(evs: seq<Event>, j: nat, k: nat)
    requires j < k <= |evs| && evs[j].Marked? && evs[j].mark.CommandLine?
    requires forall i :: j < i < k ==> !evs[i].Reconnected?
    ensures Run(evs, k).seen
    decreases k
  {
    if k > j + 1 {
      SeenStays(evs, j, k - 1);
      var s, ev := Run(evs, k - 1), evs[k - 1];
      assert Step(s, ev).0.seen;
    }
  }

  // ----- While a command runs -----

  lemma {:induction false} BusyIgnoresLines(s: State, lines: seq<Line>, screen: Screen, guessed: bool)
    requires s.prompt.Busy?
    ensures SubmitLines(s, lines, screen, guessed) == (s, [])
    decreases |lines|
  {
    if lines != [] {
      var none: seq<Note> := [];
      assert SubmitLine(s, lines[0], screen, guessed) == (s, none, guessed);
      assert none + none == none;
      BusyIgnoresLines(s, lines[1..], screen, guessed);
    }
  }

  lemma {:induction false} BusyUntilPromptEnd(evs: seq<Event>, j: nat, k: nat)
    requires j < k <= |evs| && evs[j].Marked?
    requires evs[j].mark.PromptStart? || evs[j].mark.OutputStart? || evs[j].mark.CommandEnd?
    requires forall i :: j < i < k ==> !(evs[i].Marked? && evs[i].mark.PromptEnd?)
    ensures Run(evs, k).prompt.Busy?
    decreases k
  {
    if k > j + 1 {
      BusyUntilPromptEnd(evs, j, k - 1);
      if evs[k - 1].Wrote? {
        BusyIgnoresLines(Run(evs, k - 1), evs[k - 1].lines, evs[k - 1].screen, false);
      }
    }
  }

  /**
   From the moment a command starts, ends or the prompt is being redrawn until
   the next prompt is up, whatever the user types - a password, an answer to
   `read` - is captured by nothing and changes nothing.
   */
  lemma InputToARunningCommandIsNeverCaptured(evs: seq<Event>, j: nat, k: nat)
    requires j < k < |evs| && evs[j].Marked? && evs[k].Wrote?
    requires evs[j].mark.PromptStart? || evs[j].mark.OutputStart? || evs[j].mark.CommandEnd?
    requires forall i :: j < i < k ==> !(evs[i].Marked? && evs[i].mark.PromptEnd?)
    ensures NotesAt(evs, k) == []
    ensures Run(evs, k + 1) == Run(evs, k)
  {
    BusyUntilPromptEnd(evs, j, k);
    BusyIgnoresLines(Run(evs, k), evs[k].lines, evs[k].screen, false);
  }

  /** And the echo heuristic is over for good with the first prompt, output or command-end mark. */
  lemma {:induction false} GuessingEndsWithTheFirstMark(evs: seq<Event>, j: nat, k: nat)
    requires j < k < |evs| && evs[j].Marked? && !evs[j].mark.CommandLine?
    ensures !Run(evs, k).prompt.NoIntegration?
    decreases k
  {
    if k > j + 1 {
      GuessingEndsWithTheFirstMark(evs, j, k - 1);
      var s, ev := Run(evs, k - 1), evs[k - 1];
      if ev.Wrote? {
        LinesKeepIntegration(s, ev.lines, ev.screen, false);
      }
    }
  }

  lemma {:induction false} LinesKeepIntegration(s: State, lines: seq<Line>, screen: Screen, guessed: bool)
    requires !s.prompt.NoIntegration?
    ensures !SubmitLines(s, lines, screen, guessed).0.prompt.NoIntegration?
    decreases |lines|
  {
    if lines != [] {
      var (t, _, g) := SubmitLine(s, lines[0], screen, guessed);
      LinesKeepIntegration(t, lines[1..], screen, g);
    }
  }

  // ----- The in-band path -----

  /** The mark or reconnect nearest before event `k`, keystrokes skipped. */
  function LastSignal(evs: seq<Event>, k: nat): Option<Event>
    requires k <= |evs|
  {
    if k == 0 then None
    else if evs[k - 1].Wrote? then LastSignal(evs, k - 1)
    else Some(evs[k - 1])
  }

  /** The command line the shell reported last, if nothing has been signalled since. */
  function ReportedBefore(evs: seq<Event>, k: nat): Option<seq<char>>
    requires k <= |evs|
  {
    match LastSignal(evs, k)
    case Some(Marked(CommandLine(text), _)) => text
    case _ => None
  }

  lemma {:induction false} LinesKeepInband(s: State, lines: seq<Line>, screen: Screen, guessed: bool)
    ensures SubmitLines(s, lines, screen, guessed).0.inband == s.inband
    decreases |lines|
  {
    if lines != [] {
      var (t, _, g) := SubmitLine(s, lines[0], screen, guessed);
      LinesKeepInband(t, lines[1..], screen, g);
    }
  }

  lemma {:induction false} InbandIsTheLastReport(evs: seq<Event>, k: nat)
    requires k <= |evs|
    ensures Run(evs, k).inband == ReportedBefore(evs, k)
  {
    if k > 0 {
      InbandIsTheLastReport(evs, k - 1);
      if evs[k - 1].Wrote? {
        LinesKeepInband(Run(evs, k - 1), evs[k - 1].lines, evs[k - 1].screen, false);
      }
    }
  }

  lemma {:induction false} LinesNeverReport(s: State, lines: seq<Line>, screen: Screen, guessed: bool)
    ensures forall i :: 0 <= i < |SubmitLines(s, lines, screen, guessed).1|
              ==> !SubmitLines(s, lines, screen, guessed).1[i].kind.Reported?
    decreases |lines|
  {
    if lines != [] {
      var (t, _, g) := SubmitLine(s, lines[0], screen, guessed);
      LinesNeverReport(t, lines[1..], screen, g);
    }
  }

  /**
   In-band captures, exactly: event `k` captures a reported command if and only
   if it is an OutputStart, the signal right before it is a CommandLine whose
   text came through, and that text passes the gate; the capture is that text.
   */
  lemma ReportedExactly(evs: seq<Event>, k: nat, cmd: seq<char>)
    requires k < |evs|
    ensures (exists i ::
               0 <= i < |NotesAt(evs, k)| && NotesAt(evs, k)[i].kind.Reported? && NotesAt(evs, k)[i].text == cmd)
       <==> (evs[k].Marked? && evs[k].mark.OutputStart?
             && ReportedBefore(evs, k).Some? && Sanitize(ReportedBefore(evs, k).value) == Some(cmd))
  {
    InbandIsTheLastReport(evs, k);
    var s := Run(evs, k);
    if evs[k].Wrote? {
      LinesNeverReport(s, evs[k].lines, evs[k].screen, false);
    } else if evs[k].Marked? && evs[k].mark.OutputStart? && s.inband.Some? && Sanitize(s.inband.value) == Some(cmd) {
      assert NotesAt(evs, k)[0] == Note(cmd, Reported, s.prompts);
    }
  }

  // ----- Where typed captures are read -----

  /** The position of the latest prompt end among the first `k` events. */
  function LastPrompt(evs: seq<Event>, k: nat): Option<Pos>
    requires k <= |evs|
  {
    if k == 0 then None
    else match evs[k - 1]
      case Marked(PromptEnd(pos), _) => Some(pos)
      case _ => LastPrompt(evs, k - 1)
  }

  predicate PromptIs(s: State, pos: Option<Pos>) {
    && (s.prompt.AtPrompt? ==> pos == Some(s.prompt.pos))
    && (s.pending.Some? ==> pos == s.pending)
  }

  lemma {:induction false} LinesStayAtPrompt(
      s: State, lines: seq<Line>, screen: Screen, guessed: bool, pos: Option<Pos>)
    requires PromptIs(s, pos)
    ensures var (t, notes) := SubmitLines(s, lines, screen, guessed);
            PromptIs(t, pos)
            && forall i :: 0 <= i < |notes| && Typed(notes[i]) ==> ReadAt(notes[i], screen, pos)
    decreases |lines|
  {
    if lines != [] {
      var (t, _, g) := SubmitLine(s, lines[0], screen, guessed);
      LinesStayAtPrompt(t, lines[1..], screen, g, pos);
    }
  }

  /** The note is what the grid shows from that position on, passed through the gate. */
  predicate ReadAt(note: Note, screen: Screen, pos: Option<Pos>) {
    pos.Some? && screen.LineFrom(pos.value).Some? && Sanitize(screen.LineFrom(pos.value).value) == Some(note.text)
  }

  lemma {:induction false} RunStaysAtPrompt(evs: seq<Event>, k: nat)
    requires k <= |evs|
    ensures PromptIs(Run(evs, k), LastPrompt(evs, k))
  {
    if k > 0 {
      RunStaysAtPrompt(evs, k - 1);
      if evs[k - 1].Wrote? {
        LinesStayAtPrompt(Run(evs, k - 1), evs[k - 1].lines, evs[k - 1].screen, false, LastPrompt(evs, k - 1));
      }
    }
  }

  /** Every typed-path capture, deferred ones too, is what the grid shows at the latest prompt's end. */
  lemma TypedIsReadAtTheLatestPrompt(evs: seq<Event>, k: nat, i: nat)
    requires k < |evs| && i < |NotesAt(evs, k)| && Typed(NotesAt(evs, k)[i])
    ensures !evs[k].Reconnected? && ReadAt(NotesAt(evs, k)[i], evs[k].screen, LastPrompt(evs, k))
  {
    RunStaysAtPrompt(evs, k);
    if evs[k].Wrote? {
      LinesStayAtPrompt(Run(evs, k), evs[k].lines, evs[k].screen, false, LastPrompt(evs, k));
    }
  }

  // ----- What the echo heuristic may capture -----

  /** The screen shows `shown` after the earliest prompt terminator on the cursor's line. */
  ghost predicate Shows(screen: Screen, shown: seq<char>) {
    && !screen.alt && screen.cursorLine.Some?
    && exists i :: 0 <= i && MarkerAt(screen.cursorLine.value, i) && shown == screen.cursorLine.value[i + 2..]
                   && forall j :: 0 <= j < i ==> !MarkerAt(screen.cursorLine.value, j)
  }

  /** What the heuristic captures of a submitted line: on screen after the prompt, as typed, and fit to be stored. */
  ghost predicate Echoed(line: Line, screen: Screen, cmd: seq<char>) {
    exists shown ::
      && Shows(screen, shown)
      && (line.tainted || Trim(shown) == Trim(line.text))
      && Sanitize(if line.tainted then shown else line.text) == Some(cmd)
  }

  lemma ShownIsStripped(screen: Screen, shown: seq<char>)
    ensures Shows(screen, shown) <==>
            !screen.alt && screen.cursorLine.Some? && StripPrompt(screen.cursorLine.value) == Some(shown)
  {
    if screen.cursorLine.Some? {
      var line := screen.cursorLine.value;
      if Shows(screen, shown) {
        var i :| 0 <= i && MarkerAt(line, i) && shown == line[i + 2..] && forall j :: 0 <= j < i ==> !MarkerAt(line, j);
        PromptAt(line, i);
      }
    }
  }

  lemma GuessIsEchoed(s: State, line: Line, screen: Screen, cmd: seq<char>)
    requires !screen.alt
    ensures Guess(s, line, screen) == [Note(cmd, Guessed, s.prompts)] <==> Echoed(line, screen, cmd)
    ensures |Guess(s, line, screen)| <= 1
  {
    if screen.cursorLine.Some? && StripPrompt(screen.cursorLine.value).Some? {
      var shown := StripPrompt(screen.cursorLine.value).value;
      ShownIsStripped(screen, shown);
    }
    forall shown | Shows(screen, shown)
      ensures screen.cursorLine.Some? && StripPrompt(screen.cursorLine.value) == Some(shown)
    {
      ShownIsStripped(screen, shown);
    }
  }

  /** A pane without integration looks at the first line of a write only. */
  lemma {:induction false} OnlyFirstIsGuessed(s: State, lines: seq<Line>, screen: Screen)
    requires s.prompt.NoIntegration?
    ensures SubmitLines(s, lines, screen, true) == (s, [])
    ensures lines != [] && !screen.alt ==> SubmitLines(s, lines, screen, false) == (s, Guess(s, lines[0], screen))
    ensures lines == [] || screen.alt ==> SubmitLines(s, lines, screen, false) == (s, [])
    decreases |lines|
  {
    if lines != [] {
      OnlyFirstIsGuessed(s, lines[1..], screen);
      var none: seq<Note> := [];
      assert none + none == none;
      assert Guess(s, lines[0], screen) + none == Guess(s, lines[0], screen);
    }
  }

  predicate Captures(notes: seq<Note>, kind: Kind, cmd: seq<char>) {
    exists i :: 0 <= i < |notes| && notes[i].kind == kind && notes[i].text == cmd
  }

  /** The user's write reached the shell and the pane still guesses. */
  predicate Guesses(evs: seq<Event>, k: nat)
    requires k < |evs|
  {
    && evs[k].Wrote? && evs[k].locked && evs[k].lines != []
    && !Run(evs, k).seen && Run(evs, k).prompt.NoIntegration?
  }

  /**
   The echo check, exactly and over every run: event `k` captures `cmd` by guess if
   and only if the pane guesses and the first line of the write is on the screen as
   it was typed - or is one the mirror does not vouch for - after the earliest prompt
   terminator of the cursor's line, on a screen that is not the alternate one, and
   passes the gate.
   */
  lemma GuessedExactly(evs: seq<Event>, k: nat, cmd: seq<char>)
    requires k < |evs|
    ensures Captures(NotesAt(evs, k), Guessed, cmd) <==>
            Guesses(evs, k) && Echoed(evs[k].lines[0], evs[k].screen, cmd)
  {
    var s, ev := Run(evs, k), evs[k];
    if ev.Wrote? && !s.seen && ev.locked {
      if s.prompt.NoIntegration? {
        OnlyFirstIsGuessed(s, ev.lines, ev.screen);
        if ev.lines != [] && !ev.screen.alt {
          GuessIsEchoed(s, ev.lines[0], ev.screen, cmd);
          var notes := NotesAt(evs, k);
          assert notes == Guess(s, ev.lines[0], ev.screen);
          if |notes| == 1 && notes[0].text == cmd {
            assert notes == [Note(cmd, Guessed, s.prompts)];
          }
        }
      } else {
        GuessNeedsNoIntegration(s, ev.lines, ev.screen, false);
      }
    }
  }

  /** A guessed command is, trimmed, what the cursor's line shows after its prompt: nothing unechoed is recorded. */
  lemma GuessedIsOnScreen(evs: seq<Event>, k: nat, i: nat)
    requires k < |evs| && i < |NotesAt(evs, k)| && NotesAt(evs, k)[i].kind.Guessed?
    ensures evs[k].Wrote? && exists shown :: Shows(evs[k].screen, shown) && NotesAt(evs, k)[i].text == Trim(shown)
  {
    var cmd := NotesAt(evs, k)[i].text;
    GuessedExactly(evs, k, cmd);
    var line := evs[k].lines[0];
    var shown :| Shows(evs[k].screen, shown) && (line.tainted || Trim(shown) == Trim(line.text))
                 && Sanitize(if line.tainted then shown else line.text) == Some(cmd);
    SanitizeExactly(if line.tainted then shown else line.text, cmd);
  }

  // ----- What is captured at a prompt -----

  /** The user's write reached the shell at a prompt of a pane that has not reported. */
  predicate AtPromptNow(evs: seq<Event>, k: nat)
    requires k < |evs|
  {
    && evs[k].Wrote? && evs[k].locked && evs[k].lines != []
    && !Run(evs, k).seen && Run(evs, k).prompt.AtPrompt?
  }

  lemma OnlyFirstIsSubmitted(s: State, lines: seq<Line>, screen: Screen)
    requires s.prompt.AtPrompt? && lines != []
    ensures SubmitLines(s, lines, screen, false) == SubmitAtPrompt(s, lines[0], screen)
  {
    var (t, notes) := SubmitAtPrompt(s, lines[0], screen);
    BusyIgnoresLines(t, lines[1..], screen, false);
    assert notes + [] == notes;
  }

  /**
   Event `k` captures `cmd` at once if and only if the write comes at a prompt, off
   the alternate screen, and what the grid shows from the prompt's end on is not
   blank and passes the gate as `cmd`.
   */
  lemma ImmediateExactly(evs: seq<Event>, k: nat, cmd: seq<char>)
    requires k < |evs|
    ensures Captures(NotesAt(evs, k), Immediate, cmd) <==>
            AtPromptNow(evs, k) && !evs[k].screen.alt
            && var shown := evs[k].screen.LineFrom(Run(evs, k).prompt.pos);
               shown.Some? && Trim(shown.value) != [] && Sanitize(shown.value) == Some(cmd)
  {
    var s, ev := Run(evs, k), evs[k];
    if ev.Wrote? && !s.seen && ev.locked && ev.lines != [] {
      match s.prompt {
        case AtPrompt(_) =>
          OnlyFirstIsSubmitted(s, ev.lines, ev.screen);
          assert NotesAt(evs, k) == SubmitAtPrompt(s, ev.lines[0], ev.screen).1;
          if AtPromptNow(evs, k) && |NotesAt(evs, k)| == 1 {
            assert NotesAt(evs, k)[0].kind.Immediate?;
          }
        case Busy =>
          BusyIgnoresLines(s, ev.lines, ev.screen, false);
        case NoIntegration =>
          OnlyFirstIsGuessed(s, ev.lines, ev.screen);
      }
    }
  }

  /**
   A capture is put off if and only if the grid shows nothing there yet and
   something was submitted; from then on it waits at that prompt's end.
   */
  lemma PutOffExactly(evs: seq<Event>, k: nat)
    requires k < |evs| && AtPromptNow(evs, k)
    ensures var s, screen := Run(evs, k), evs[k].screen;
            var shown := screen.LineFrom(s.prompt.pos);
            && Run(evs, k + 1).prompt == Busy
            && (Run(evs, k + 1).pending == Some(s.prompt.pos) <==>
                !screen.alt && shown.Some? && Trim(shown.value) == []
                && (evs[k].lines[0].tainted || Trim(evs[k].lines[0].text) != []))
  {
    RunOk(evs, k);
    OnlyFirstIsSubmitted(Run(evs, k), evs[k].lines, evs[k].screen);
  }

  /** A capture put off is made when the command starts, from what the grid then shows, and then only. */
  lemma DeferredExactly(evs: seq<Event>, k: nat, cmd: seq<char>)
    requires k < |evs|
    ensures Captures(NotesAt(evs, k), Deferred, cmd) <==>
            evs[k].Marked? && evs[k].mark.OutputStart? && Run(evs, k).pending.Some?
            && var shown := evs[k].screen.LineFrom(Run(evs, k).pending.value);
               shown.Some? && Sanitize(shown.value) == Some(cmd)
  {
    RunOk(evs, k);
    var s, ev := Run(evs, k), evs[k];
    if ev.Wrote? {
      LinesNeverDefer(s, ev.lines, ev.screen, false);
    } else if ev.Marked? && ev.mark.OutputStart? && s.pending.Some? {
      assert s.inband.None?;
      var notes := NotesAt(evs, k);
      if |notes| == 1 {
        assert notes[0].kind.Deferred?;
      }
    }
  }

  lemma {:induction false} LinesNeverDefer(s: State, lines: seq<Line>, screen: Screen, guessed: bool)
    ensures forall i :: 0 <= i < |SubmitLines(s, lines, screen, guessed).1|
              ==> !SubmitLines(s, lines, screen, guessed).1[i].kind.Deferred?
    decreases |lines|
  {
    if lines != [] {
      var (t, _, g) := SubmitLine(s, lines[0], screen, guessed);
      LinesNeverDefer(t, lines[1..], screen, g);
    }
  }

  // ----- The one command that is recorded twice -----

  lemma {:induction false} RunOfPrefix(evs: seq<Event>, ev: Event, n: nat)
    requires n <= |evs|
    ensures Run(evs + [ev], n) == Run(evs, n) && Notes(evs + [ev], n) == Notes(evs, n)
  {
    if n > 0 {
      RunOfPrefix(evs, ev, n - 1);
      assert (evs + [ev])[n - 1] == evs[n - 1];
    }
  }

  function Final(evs: seq<Event>): State { Run(evs, |evs|) }

  function AllNotes(evs: seq<Event>): seq<Note> { Notes(evs, |evs|) }

  lemma OneMoreEvent(evs: seq<Event>, ev: Event)
    ensures Final(evs + [ev]) == Step(Final(evs), ev).0
    ensures AllNotes(evs + [ev]) == AllNotes(evs) + Step(Final(evs), ev).1
  {
    RunOfPrefix(evs, ev, |evs|);
    assert (evs + [ev])[|evs|] == ev;
  }

  lemma SubmitsWhatIsShown(s: State, line: Line, screen: Screen, text: seq<char>)
    requires s.prompt.AtPrompt? && !s.seen && !screen.alt && screen.LineFrom(s.prompt.pos) == Some(text)
    requires Sanitize(text).Some?
    ensures Input(s, [line], true, screen)
         == (s.(prompt := Busy), [Note(Sanitize(text).value, Immediate, s.prompts)])
  {
    var busy, note := s.(prompt := Busy), [Note(Sanitize(text).value, Immediate, s.prompts)];
    assert SubmitLine(s, line, screen, false) == (busy, note, false);
    assert [line][1..] == [];
    assert SubmitLines(busy, [], screen, false) == (busy, []);
    assert note + [] == note;
  }

  /** What the shell's own report of a command at this prompt adds, and its start confirms. */
  lemma ReportThenStart(s: State, text: seq<char>, screen: Screen)
    requires Sanitize(text).Some?
    ensures var told := Step(s, Marked(CommandLine(Some(text)), screen));
            told.1 == [] && Step(told.0, Marked(OutputStart, screen)).1
                == [Note(Sanitize(text).value, Reported, s.prompts)]
  {}

  /**
   On a pane that has not reported a line yet: a command echoed before Enter, then
   reported by the shell and started, is captured by both paths.
   */
  lemma FirstReportRecordsTwice(evs: seq<Event>, line: Line, screen: Screen, text: seq<char>)
    requires Final(evs).prompt.AtPrompt? && !Final(evs).seen && !screen.alt
    requires screen.LineFrom(Final(evs).prompt.pos) == Some(text) && Sanitize(text).Some?
    ensures var typed := evs + [Wrote([line], true, screen)];
            var reported := typed + [Marked(CommandLine(Some(text)), screen)];
            var started := reported + [Marked(OutputStart, screen)];
            var cmd, p := Sanitize(text).value, Final(evs).prompts;
            AllNotes(started) == AllNotes(evs) + [Note(cmd, Immediate, p)] + [Note(cmd, Reported, p)]
  {
    var s := Final(evs);
    var wrote, began := Wrote([line], true, screen), Marked(OutputStart, screen);
    var told := Marked(CommandLine(Some(text)), screen);
    OneMoreEvent(evs, wrote);
    SubmitsWhatIsShown(s, line, screen, text);
    OneMoreEvent(evs + [wrote], told);
    ReportThenStart(s.(prompt := Busy), text, screen);
    assert AllNotes(evs + [wrote]) + [] == AllNotes(evs + [wrote]);
    OneMoreEvent(evs + [wrote] + [told], began);
  }

  /** Event `k` captures a command from the user's side - read off the grid, deferred or guessed - at prompt `p`. */
  ghost predicate CapturedAt(evs: seq<Event>, k: nat, p: nat)
    requires k < |evs|
  {
    exists i :: 0 <= i < |NotesAt(evs, k)| && !NotesAt(evs, k)[i].kind.Reported? && NotesAt(evs, k)[i].prompt == p
  }

  /** Event `k` captures a reported command at prompt `p`. */
  ghost predicate ReportedAt(evs: seq<Event>, k: nat, p: nat)
    requires k < |evs|
  {
    exists i :: 0 <= i < |NotesAt(evs, k)| && NotesAt(evs, k)[i].kind.Reported? && NotesAt(evs, k)[i].prompt == p
  }

  /** No command is started at `j` or later and before `k`. */
  predicate NoStartBetween(evs: seq<Event>, j: nat, k: nat)
    requires k <= |evs|
  {
    forall i :: j <= i < k ==> !(evs[i].Marked? && evs[i].mark.OutputStart?)
  }

  predicate NoPromptBetween(evs: seq<Event>, j: nat, k: nat)
    requires k <= |evs|
  {
    forall i :: j <= i < k ==> !(evs[i].Marked? && evs[i].mark.PromptEnd?)
  }

  /** The command captured from the user's side at `j` is the one reported when it starts, at `k`. */
  ghost predicate Doubled(evs: seq<Event>, j: nat, k: nat)
    requires j < |evs| && k < |evs|
  {
    (exists p :: CapturedAt(evs, j, p) && ReportedAt(evs, k, p)) && NoStartBetween(evs, j, k)
  }

  ghost predicate RecordedTwice(evs: seq<Event>, n: nat)
    requires n <= |evs|
  {
    exists j, k :: 0 <= j < n && 0 <= k < n && Doubled(evs, j, k)
  }

  /** Event `k` starts a command right after the shell reported one that passes the gate. */
  predicate Confirms(evs: seq<Event>, k: nat)
    requires k < |evs|
  {
    && evs[k].Marked? && evs[k].mark.OutputStart?
    && ReportedBefore(evs, k).Some? && Sanitize(ReportedBefore(evs, k).value).Some?
  }

  lemma ReportedIsConfirmed(evs: seq<Event>, k: nat, p: nat)
    requires k < |evs|
    ensures ReportedAt(evs, k, p) <==> Confirms(evs, k) && Run(evs, k).prompts == p
  {
    InbandIsTheLastReport(evs, k);
    RunOk(evs, k);
    StepSpends(Run(evs, k), evs[k]);
    if evs[k].Wrote? {
      LinesNeverReport(Run(evs, k), evs[k].lines, evs[k].screen, false);
    } else if Confirms(evs, k) {
      assert NotesAt(evs, k)[0].kind.Reported?;
    }
  }

  /**
   What it takes to capture from the user's side: a pane that has not reported, and a prompt that is not busy or
   a capture put off.
   */
  lemma CapturedIsOpen(evs: seq<Event>, k: nat, p: nat)
    requires k < |evs| && CapturedAt(evs, k, p)
    ensures Run(evs, k).prompts == p && !Run(evs, k).seen
    ensures if evs[k].Wrote? then !Run(evs, k).prompt.Busy?
            else evs[k].Marked? && evs[k].mark.OutputStart? && Run(evs, k).pending.Some?
  {
    InbandIsTheLastReport(evs, k);
    RunOk(evs, k);
    StepSpends(Run(evs, k), evs[k]);
    if evs[k].Wrote? && Run(evs, k).prompt.Busy? {
      BusyIgnoresLines(Run(evs, k), evs[k].lines, evs[k].screen, false);
    }
  }

  lemma {:induction false} PromptsStand(evs: seq<Event>, j: nat, k: nat)
    requires j <= k <= |evs|
    ensures Run(evs, j).prompts <= Run(evs, k).prompts
    ensures Run(evs, j).prompts == Run(evs, k).prompts <==> NoPromptBetween(evs, j, k)
    decreases k
  {
    if j < k {
      PromptsStand(evs, j, k - 1);
      RunOk(evs, k - 1);
      StepSpends(Run(evs, k - 1), evs[k - 1]);
      PromptCounts(Run(evs, k - 1), evs[k - 1]);
      assert NoPromptBetween(evs, j, k) <==>
             NoPromptBetween(evs, j, k - 1) && !(evs[k - 1].Marked? && evs[k - 1].mark.PromptEnd?);
    }
  }

  lemma PromptCounts(s: State, ev: Event)
    requires StateOk(s)
    ensures Step(s, ev).0.prompts == s.prompts + if ev.Marked? && ev.mark.PromptEnd? then 1 else 0
  {
    if ev.Wrote? && !s.seen && ev.locked {
      LinesSpend(s, ev.lines, ev.screen, false);
    }
  }

  /** A command that has started is over with its prompt: nothing is put off there any more. */
  lemma {:induction false} NothingPutOffAfterStart(evs: seq<Event>, j: nat, k: nat)
    requires j < k <= |evs| && evs[j].Marked? && evs[j].mark.OutputStart? && NoPromptBetween(evs, j, k)
    ensures Run(evs, k).prompt.Busy? && Run(evs, k).pending.None?
    decreases k
  {
    BusyUntilPromptEnd(evs, j, k);
    if k > j + 1 {
      NothingPutOffAfterStart(evs, j, k - 1);
      if evs[k - 1].Wrote? {
        BusyIgnoresLines(Run(evs, k - 1), evs[k - 1].lines, evs[k - 1].screen, false);
      }
    }
  }

  lemma CapturedComesFirst(evs: seq<Event>, j: nat, k: nat, p: nat)
    requires j < |evs| && k < |evs| && CapturedAt(evs, j, p) && ReportedAt(evs, k, p)
    ensures j < k && Run(evs, j).prompts == Run(evs, k).prompts == p && Confirms(evs, k)
  {
    CapturedIsOpen(evs, j, p);
    ReportedIsConfirmed(evs, k, p);
    InbandIsTheLastReport(evs, k);
    RunOk(evs, k);
    if k < j {
      PromptsStand(evs, k, j);
      NothingPutOffAfterStart(evs, k, j);
    }
  }

  /**
   Recorded twice, exactly: a command is captured both from the user's side and as
   reported if and only if it is captured from the user's side - read off the grid
   or guessed - and then, with no new prompt and no other start in between, the
   shell reports a command line that passes the gate and starts it.
   */
  lemma RecordedTwiceExactly(evs: seq<Event>, n: nat)
    requires n <= |evs|
    ensures RecordedTwice(evs, n) <==>
            exists j, k, p {:trigger CapturedAt(evs, j, p), Confirms(evs, k)} ::
              0 <= j < k < n && CapturedAt(evs, j, p) && Confirms(evs, k)
              && NoPromptBetween(evs, j, k) && NoStartBetween(evs, j, k)
  {
    if RecordedTwice(evs, n) {
      var j, k :| 0 <= j < n && 0 <= k < n && Doubled(evs, j, k);
      var p :| CapturedAt(evs, j, p) && ReportedAt(evs, k, p);
      CapturedComesFirst(evs, j, k, p);
      PromptsStand(evs, j, k);
      assert CapturedAt(evs, j, p) && Confirms(evs, k) && NoPromptBetween(evs, j, k) && NoStartBetween(evs, j, k);
    }
    if j, k, p {:trigger CapturedAt(evs, j, p), Confirms(evs, k)} :|
         0 <= j < k < n && CapturedAt(evs, j, p) && Confirms(evs, k)
         && NoPromptBetween(evs, j, k) && NoStartBetween(evs, j, k) {
      CapturedIsOpen(evs, j, p);
      PromptsStand(evs, j, k);
      ReportedIsConfirmed(evs, k, p);
      assert Doubled(evs, j, k);
    }
  }

  predicate ReconnectBetween(evs: seq<Event>, j: nat, k: nat)
    requires k <= |evs|
  {
    exists i :: j < i < k && evs[i].Reconnected?
  }

  /** The signal right before a confirmed command is its report. */
  lemma {:induction false} LastReport(evs: seq<Event>, k: nat) returns (i: nat)
    requires k <= |evs| && ReportedBefore(evs, k).Some?
    ensures i < k && evs[i].Marked? && evs[i].mark.CommandLine? && forall h :: i < h < k ==> evs[h].Wrote?
  {
    if evs[k - 1].Wrote? {
      i := LastReport(evs, k - 1);
    } else {
      i := k - 1;
    }
  }

  /** After a confirmed report no command is captured from the user's side until the pane reconnects. */
  lemma NoCaptureAfterReport(evs: seq<Event>, k: nat, j: nat, p: nat)
    requires k < j < |evs| && Confirms(evs, k) && CapturedAt(evs, j, p)
    ensures ReconnectBetween(evs, k, j)
  {
    var i := LastReport(evs, k);
    CapturedIsOpen(evs, j, p);
    if !ReconnectBetween(evs, k, j) {
      assert forall h :: i < h < j ==> !evs[h].Reconnected?;
      SeenStays(evs, i, j);
    }
  }

  /**
   Between two reconnects at most one command is recorded twice, and its report is
   the first the pane confirms: no report was confirmed between the last reconnect
   and its capture, and any later command recorded twice has a reconnect before it.
   */
  lemma RecordedTwiceOncePerConnection(evs: seq<Event>, j: nat, k: nat, later: nat, end: nat)
    requires j < |evs| && k < |evs| && Doubled(evs, j, k)
    requires later < |evs| && end < |evs| && Doubled(evs, later, end) && k < end
    ensures j < k < later < end && ReconnectBetween(evs, k, later)
    ensures forall h :: 0 <= h < j && Confirms(evs, h) ==> ReconnectBetween(evs, h, j)
  {
    var p :| CapturedAt(evs, j, p) && ReportedAt(evs, k, p);
    var q :| CapturedAt(evs, later, q) && ReportedAt(evs, end, q);
    CapturedComesFirst(evs, j, k, p);
    CapturedComesFirst(evs, later, end, q);
    CapturedIsOpen(evs, later, q);
    if later == k {
      InbandIsTheLastReport(evs, k);
      RunOk(evs, k);
    } else {
      NoCaptureAfterReport(evs, k, later, q);
    }
    forall h | 0 <= h < j && Confirms(evs, h)
      ensures ReconnectBetween(evs, h, j)
    {
      NoCaptureAfterReport(evs, h, j, p);
    }
  }

  ghost predicate GuessedAt(evs: seq<Event>, j: nat)
    requires j < |evs|
  {
    exists i :: 0 <= i < |NotesAt(evs, j)| && NotesAt(evs, j)[i].kind.Guessed?
  }

  lemma {:induction false} GuessNeedsNoIntegration(s: State, lines: seq<Line>, screen: Screen, guessed: bool)
    requires !s.prompt.NoIntegration?
    ensures forall i :: 0 <= i < |SubmitLines(s, lines, screen, guessed).1|
              ==> !SubmitLines(s, lines, screen, guessed).1[i].kind.Guessed?
    decreases |lines|
  {
    if lines != [] {
      var (t, _, g) := SubmitLine(s, lines[0], screen, guessed);
      GuessNeedsNoIntegration(t, lines[1..], screen, g);
    }
  }

  lemma NoGuessAfterStart(evs: seq<Event>, k: nat, later: nat)
    requires k < later < |evs| && evs[k].Marked? && evs[k].mark.OutputStart?
    ensures !GuessedAt(evs, later)
  {
    GuessingEndsWithTheFirstMark(evs, k, later);
    if evs[later].Wrote? {
      GuessNeedsNoIntegration(Run(evs, later), evs[later].lines, evs[later].screen, false);
    }
  }

  lemma DoubledStarts(evs: seq<Event>, j: nat, k: nat)
    requires j < |evs| && k < |evs| && Doubled(evs, j, k)
    ensures evs[k].Marked? && evs[k].mark.OutputStart?
  {
    var p :| CapturedAt(evs, j, p) && ReportedAt(evs, k, p);
    ReportedIsConfirmed(evs, k, p);
  }

  /** And of the guessed ones at most one in a pane's life: its start ends guessing. */
  lemma GuessedTwiceOnce(evs: seq<Event>, j: nat, k: nat, later: nat, end: nat)
    requires j < |evs| && k < |evs| && Doubled(evs, j, k) && GuessedAt(evs, j)
    requires later < |evs| && end < |evs| && Doubled(evs, later, end) && GuessedAt(evs, later)
    ensures k == end
  {
    DoubledStarts(evs, j, k);
    DoubledStarts(evs, later, end);
    if k < end {
      RecordedTwiceOncePerConnection(evs, j, k, later, end);
      NoGuessAfterStart(evs, k, later);
    } else if end < k {
      RecordedTwiceOncePerConnection(evs, later, end, j, k);
      NoGuessAfterStart(evs, end, j);
    }
  }
}
