/** What a pane remembers between events, read off the log of what happened to it. */
module CaptureMemory {
  import opened Options
  import opened CommandText
  import opened CommandCapture

  /** The user's write submits a line to a pane that has not reported. */
  predicate Submits(evs: seq<Event>, i: nat)
    requires i < |evs|
  {
    evs[i].Wrote? && evs[i].locked && evs[i].lines != [] && !Run(evs, i).seen
  }

  /** Only at a prompt does a write change what the pane remembers. */
  lemma WriteSteps(s: State, lines: seq<Line>, locked: bool, screen: Screen)
    ensures Input(s, lines, locked, screen).0
         == if s.seen || !locked || lines == [] || !s.prompt.AtPrompt? then s
            else SubmitAtPrompt(s, lines[0], screen).0
  {
    if !s.seen && locked && lines != [] {
      match s.prompt {
        case AtPrompt(_) => OnlyFirstIsSubmitted(s, lines, screen);
        case Busy => BusyIgnoresLines(s, lines, screen, false);
        case NoIntegration => OnlyFirstIsGuessed(s, lines, screen);
      }
    }
  }

  lemma RunSteps(evs: seq<Event>, n: nat)
    requires n < |evs|
    ensures Run(evs, n + 1) == match evs[n]
              case Wrote(lines, _, screen) =>
                if Submits(evs, n) && Run(evs, n).prompt.AtPrompt? then SubmitAtPrompt(Run(evs, n), lines[0], screen).0
                else Run(evs, n)
              case Marked(mark, screen) => Observe(Run(evs, n), mark, screen).0
              case Reconnected => Run(evs, n).(seen := false, inband := None)
  {
    if evs[n].Wrote? {
      WriteSteps(Run(evs, n), evs[n].lines, evs[n].locked, evs[n].screen);
    }
  }

  // ----- Whether the shell reports -----

  predicate ReportsSince(evs: seq<Event>, j: nat, n: nat)
    requires j < n <= |evs|
  {
    evs[j].Marked? && evs[j].mark.CommandLine? && forall i :: j < i < n ==> !evs[i].Reconnected?
  }

  /** The pane counts as reporting exactly when its shell has reported a line since the last reconnect. */
  lemma {:induction false} SeenExactly(evs: seq<Event>, n: nat)
    requires n <= |evs|
    ensures Run(evs, n).seen <==> exists j :: 0 <= j < n && ReportsSince(evs, j, n)
  {
    if n > 0 {
      SeenExactly(evs, n - 1);
      RunSteps(evs, n - 1);
      if evs[n - 1].Marked? && evs[n - 1].mark.CommandLine? {
        assert ReportsSince(evs, n - 1, n);
      } else if Run(evs, n).seen {
        var j :| 0 <= j < n - 1 && ReportsSince(evs, j, n - 1);
        assert ReportsSince(evs, j, n);
      } else if exists j :: 0 <= j < n && ReportsSince(evs, j, n) {
        var j :| 0 <= j < n && ReportsSince(evs, j, n);
        assert ReportsSince(evs, j, n - 1);
      }
    }
  }

  // ----- Where the pane stands -----

  /** The event ends a prompt: a mark other than a reported line, or a submitted line. */
  predicate EndsPrompt(evs: seq<Event>, i: nat)
    requires i < |evs|
  {
    (evs[i].Marked? && !evs[i].mark.CommandLine?) || Submits(evs, i)
  }

  predicate PromptSince(evs: seq<Event>, j: nat, n: nat, pos: Pos)
    requires j < n <= |evs|
  {
    evs[j].Marked? && evs[j].mark == PromptEnd(pos) && forall i :: j < i < n ==> !EndsPrompt(evs, i)
  }

  /** The pane is at a prompt exactly when one has been drawn there and nothing has ended it since. */
  lemma {:induction false} PromptExactly(evs: seq<Event>, n: nat, pos: Pos)
    requires n <= |evs|
    ensures Run(evs, n).prompt == AtPrompt(pos) <==> exists j :: 0 <= j < n && PromptSince(evs, j, n, pos)
  {
    if n > 0 {
      PromptExactly(evs, n - 1, pos);
      RunSteps(evs, n - 1);
      if evs[n - 1].Marked? && evs[n - 1].mark == PromptEnd(pos) {
        assert PromptSince(evs, n - 1, n, pos);
      } else if Run(evs, n).prompt == AtPrompt(pos) {
        var j :| 0 <= j < n - 1 && PromptSince(evs, j, n - 1, pos);
        assert PromptSince(evs, j, n, pos);
      } else if exists j :: 0 <= j < n && PromptSince(evs, j, n, pos) {
        var j :| 0 <= j < n && PromptSince(evs, j, n, pos);
        assert !EndsPrompt(evs, n - 1);
        assert PromptSince(evs, j, n - 1, pos);
      }
    }
  }

  /** It guesses exactly as long as no mark but reported lines has come. */
  lemma {:induction false} GuessesExactly(evs: seq<Event>, n: nat)
    requires n <= |evs|
    ensures Run(evs, n).prompt.NoIntegration? <==>
            forall j :: 0 <= j < n && evs[j].Marked? ==> evs[j].mark.CommandLine?
  {
    if n > 0 {
      GuessesExactly(evs, n - 1);
      RunSteps(evs, n - 1);
    }
  }

  // ----- What is put off -----

  /** A line is submitted at a prompt at which the grid shows nothing yet. */
  predicate PutsOff(evs: seq<Event>, j: nat, pos: Pos)
    requires j < |evs|
  {
    && Submits(evs, j) && Run(evs, j).prompt == AtPrompt(pos) && !evs[j].screen.alt
    && evs[j].screen.LineFrom(pos).Some? && Trim(evs[j].screen.LineFrom(pos).value) == []
    && (evs[j].lines[0].tainted || Trim(evs[j].lines[0].text) != [])
  }

  predicate PutOffSince(evs: seq<Event>, j: nat, n: nat, pos: Pos)
    requires j < n <= |evs|
  {
    PutsOff(evs, j, pos) && forall i :: j < i < n ==> evs[i].Marked? ==> evs[i].mark.CommandEnd?
  }

  lemma PendingSteps(evs: seq<Event>, n: nat, pos: Pos)
    requires n < |evs|
    ensures Run(evs, n + 1).pending == Some(pos) <==>
            || PutsOff(evs, n, pos)
            || (Run(evs, n).pending == Some(pos) && (evs[n].Marked? ==> evs[n].mark.CommandEnd?))
  {
    RunSteps(evs, n);
    RunOk(evs, n);
  }

  lemma PutOffStays(evs: seq<Event>, j: nat, n: nat, pos: Pos)
    requires j + 1 < n <= |evs|
    ensures PutOffSince(evs, j, n, pos) <==>
            PutOffSince(evs, j, n - 1, pos) && (evs[n - 1].Marked? ==> evs[n - 1].mark.CommandEnd?)
  {}

  /** A capture is waiting exactly when one was put off and no mark but a command's end has come since. */
  lemma {:induction false} PendingExactly(evs: seq<Event>, n: nat, pos: Pos)
    requires n <= |evs|
    ensures Run(evs, n).pending == Some(pos) <==> exists j :: 0 <= j < n && PutOffSince(evs, j, n, pos)
  {
    if n > 0 {
      PendingExactly(evs, n - 1, pos);
      PendingSteps(evs, n - 1, pos);
      if PutsOff(evs, n - 1, pos) {
        assert PutOffSince(evs, n - 1, n, pos);
      } else if Run(evs, n).pending == Some(pos) {
        var j :| 0 <= j < n - 1 && PutOffSince(evs, j, n - 1, pos);
        PutOffStays(evs, j, n, pos);
      } else if exists j :: 0 <= j < n && PutOffSince(evs, j, n, pos) {
        var j :| 0 <= j < n && PutOffSince(evs, j, n, pos);
        if j < n - 1 {
          PutOffStays(evs, j, n, pos);
        }
      }
    }
  }
}
