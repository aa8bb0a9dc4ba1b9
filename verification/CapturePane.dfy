/** The pane's two capture entry points as the source runs them, over its mutable fields. */
module CapturePane {
  import opened Options
  import opened CommandText
  import opened CommandCapture

  /** A mark as it leaves the sniffer: a command line names its text by id. */
  datatype RawMark =
    | RawPromptEnd(pos: Pos)
    | RawPromptStart
    | RawCommandLine(id: nat)
    | RawOutputStart
    | RawCommandEnd

  datatype Reported = Reported(id: nat, text: seq<char>)

  /** The first text reported under `id` in this batch. */
  function Find(texts: seq<Reported>, id: nat): Option<seq<char>> {
    if texts == [] then None
    else if texts[0].id == id then Some(texts[0].text)
    else Find(texts[1..], id)
  }

  function Resolve(m: RawMark, texts: seq<Reported>): Mark {
    match m
    case RawPromptEnd(pos) => PromptEnd(pos)
    case RawPromptStart => PromptStart
    case RawCommandLine(id) => CommandLine(Find(texts, id))
    case RawOutputStart => OutputStart
    case RawCommandEnd => CommandEnd
  }

  /** A whole batch of marks, over the one grid the batch left. */
  function ObserveAll(s: State, marks: seq<RawMark>, texts: seq<Reported>, screen: Screen): (State, seq<Note>)
    decreases |marks|
  {
    if marks == [] then (s, [])
    else
      var (t, notes) := Observe(s, Resolve(marks[0], texts), screen);
      var (u, more) := ObserveAll(t, marks[1..], texts, screen);
      (u, notes + more)
  }

  function Texts(notes: seq<Note>): seq<seq<char>> {
    seq(|notes|, i requires 0 <= i < |notes| => notes[i].text)
  }

  lemma TextsConcat(a: seq<Note>, b: seq<Note>)
    ensures Texts(a + b) == Texts(a) + Texts(b)
  {}

  class Pane {
    var prompt: Prompt
    var pending: Option<Pos>
    var seen: bool
    var inband: Option<seq<char>>
    ghost var prompts: nat

    ghost function Now(): State
      reads this
    {
      State(prompt, pending, seen, inband, prompts)
    }

    constructor ()
      ensures Now() == Fresh
    {
      prompt, pending, seen, inband, prompts := NoIntegration, None, false, None, 0;
    }

    /** The reconnect resets what the dead shell had proved. */
    method Reconnect()
      modifies this
      ensures Now() == Step(old(Now()), Reconnected).0
    {
      seen, inband := false, None;
    }

    /** One submitted line. */
    method ObserveLine(line: Line, screen: Screen, guessed: bool) returns (captured: seq<seq<char>>, nowGuessed: bool)
      modifies this
      ensures var (t, notes, g) := SubmitLine(old(Now()), line, screen, guessed);
              Now() == t && captured == Texts(notes) && nowGuessed == g
    {
      captured, nowGuessed := [], guessed;
      match prompt {
        case AtPrompt(pos) =>
          prompt := Busy;
          if screen.alt {
            return;
          }
          var shown := screen.LineFrom(pos);
          if shown.Some? && Trim(shown.value) != [] {
            var cmd := Sanitize(shown.value);
            if cmd.Some? {
              captured := [cmd.value];
            }
          } else if shown.Some? && (line.tainted || Trim(line.text) != []) {
            pending := Some(pos);
          }
        case Busy =>
        case NoIntegration =>
          if guessed || screen.alt {
            return;
          }
          nowGuessed := true;
          if screen.cursorLine.None? {
            return;
          }
          var stripped := StripPrompt(screen.cursorLine.value);
          if stripped.None? {
            return;
          }
          var typed := line.text;
          if line.tainted {
            typed := stripped.value;
          } else if Trim(stripped.value) != Trim(line.text) {
            return;
          }
          var cmd := Sanitize(typed);
          if cmd.Some? {
            captured := [cmd.value];
          }
      }
    }

    /** `observe_input`: the commands captured by the Enters of one user write. */
    method ObserveInput(lines: seq<Line>, locked: bool, screen: Screen) returns (captured: seq<seq<char>>)
      modifies this
      ensures var (t, notes) := Input(old(Now()), lines, locked, screen);
              Now() == t && captured == Texts(notes)
    {
      captured := [];
      if |lines| == 0 || seen || !locked {
        return;
      }
      var guessed := false;
      ghost var notes: seq<Note> := [];
      assert lines[0..] == lines;
      assert notes + SubmitLines(Now(), lines, screen, false).1 == SubmitLines(Now(), lines, screen, false).1;
      for i := 0 to |lines|
        invariant captured == Texts(notes)
        invariant var (t, more) := SubmitLines(Now(), lines[i..], screen, guessed);
                  (t, notes + more) == SubmitLines(old(Now()), lines, screen, false)
      {
        ghost var before := Now();
        ghost var step := SubmitLine(before, lines[i], screen, guessed);
        var texts;
        texts, guessed := ObserveLine(lines[i], screen, guessed);
        assert lines[i..][1..] == lines[i + 1..];
        TextsConcat(notes, step.1);
        ghost var more := SubmitLines(Now(), lines[i + 1..], screen, guessed).1;
        assert notes + (step.1 + more) == (notes + step.1) + more;
        captured := captured + texts;
        notes := notes + step.1;
      }
      assert lines[|lines|..] == [];
      assert notes + [] == notes;
    }

    /** One mark. */
    method ObserveMark(mark: RawMark, texts: seq<Reported>, screen: Screen) returns (captured: seq<seq<char>>)
      modifies this
      ensures var (t, notes) := Observe(old(Now()), Resolve(mark, texts), screen);
              Now() == t && captured == Texts(notes)
    {
      captured := [];
      match mark {
        case RawPromptEnd(pos) =>
          pending, inband, prompt, prompts := None, None, AtPrompt(pos), prompts + 1;
        case RawPromptStart =>
          pending, inband, prompt := None, None, Busy;
        case RawCommandLine(id) =>
          seen, inband, pending := true, Find(texts, id), None;
        case RawOutputStart =>
          if inband.Some? {
            var cmd := Sanitize(inband.value);
            if cmd.Some? {
              captured := [cmd.value];
            }
            inband, pending := None, None;
          } else {
            var deferred := pending;
            pending := None;
            if deferred.Some? && !seen {
              var shown := screen.LineFrom(deferred.value);
              if shown.Some? {
                var cmd := Sanitize(shown.value);
                if cmd.Some? {
                  captured := [cmd.value];
                }
              }
            }
          }
          prompt := Busy;
        case RawCommandEnd =>
          inband, prompt := None, Busy;
      }
    }

    /** `observe_output_marks`: one output batch's marks, in order. */
    method ObserveOutputMarks(marks: seq<RawMark>, texts: seq<Reported>, screen: Screen)
        returns (captured: seq<seq<char>>)
      modifies this
      ensures var (t, notes) := ObserveAll(old(Now()), marks, texts, screen);
              Now() == t && captured == Texts(notes)
    {
      captured := [];
      ghost var notes: seq<Note> := [];
      assert marks[0..] == marks;
      assert notes + ObserveAll(Now(), marks, texts, screen).1 == ObserveAll(Now(), marks, texts, screen).1;
      for i := 0 to |marks|
        invariant captured == Texts(notes)
        invariant var (t, more) := ObserveAll(Now(), marks[i..], texts, screen);
                  (t, notes + more) == ObserveAll(old(Now()), marks, texts, screen)
      {
        ghost var step := Observe(Now(), Resolve(marks[i], texts), screen);
        var found := ObserveMark(marks[i], texts, screen);
        assert marks[i..][1..] == marks[i + 1..];
        TextsConcat(notes, step.1);
        ghost var more := ObserveAll(Now(), marks[i + 1..], texts, screen).1;
        assert notes + (step.1 + more) == (notes + step.1) + more;
        captured := captured + found;
        notes := notes + step.1;
      }
      assert marks[|marks|..] == [];
      assert notes + [] == notes;
    }
  }

  /** A run extended by one batch. */
  function Extend(evs: seq<Event>, marks: seq<RawMark>, texts: seq<Reported>, screen: Screen): seq<Event>
    decreases |marks|
  {
    if marks == [] then evs
    else Extend(evs + [Marked(Resolve(marks[0], texts), screen)], marks[1..], texts, screen)
  }

  /** A batch's marks are that many events of the run, all over the batch's grid. */
  lemma {:induction false} BatchIsEvents(evs: seq<Event>, marks: seq<RawMark>, texts: seq<Reported>, screen: Screen)
    ensures Final(Extend(evs, marks, texts, screen)) == ObserveAll(Final(evs), marks, texts, screen).0
    ensures AllNotes(Extend(evs, marks, texts, screen))
            == AllNotes(evs) + ObserveAll(Final(evs), marks, texts, screen).1
    decreases |marks|
  {
    if marks == [] {
      assert AllNotes(evs) + [] == AllNotes(evs);
    } else {
      var ev := Marked(Resolve(marks[0], texts), screen);
      var s := Final(evs);
      OneMoreEvent(evs, ev);
      BatchIsEvents(evs + [ev], marks[1..], texts, screen);
      JoinNotes(AllNotes(evs), s, marks, texts, screen);
    }
  }

  lemma JoinNotes(before: seq<Note>, s: State, marks: seq<RawMark>, texts: seq<Reported>, screen: Screen)
    requires marks != []
    ensures var (t, first) := Observe(s, Resolve(marks[0], texts), screen);
            before + first + ObserveAll(t, marks[1..], texts, screen).1
                == before + ObserveAll(s, marks, texts, screen).1
  {
    var (t, first) := Observe(s, Resolve(marks[0], texts), screen);
    assert before + first + ObserveAll(t, marks[1..], texts, screen).1
        == before + (first + ObserveAll(t, marks[1..], texts, screen).1);
  }
}
