/**
 A local pane's startup command: parked when the pane opens, sent once the
 pane's output has gone quiet, dropped if the pane has closed by then. Every batch
 of output sets a timer of its own.
 */
module LocalStartup {
  import opened Options

  type Pane = nat
  type Text = seq<char>

  datatype Pending = Pending(command: Text, batches: nat)

  /** A timer running for a pane, with the batch that set it. */
  datatype Timer = Timer(pane: Pane, armedAt: nat)

  datatype World = World(
    pending: map<Pane, Pending>,
    armed: set<Pane>,
    closed: set<Pane>,
    timers: multiset<Timer>,
    sent: seq<(Pane, Text)>)

  const Start := World(map[], {}, {}, multiset{}, [])

  datatype Event =
    | Arm(pane: Pane, command: Text)
    | Output(pane: Pane)
    | Fires(timer: Timer)
    | Closes(pane: Pane)

  /** A pane opens, and is armed, once; only a running timer fires. */
  predicate Possible(w: World, ev: Event) {
    match ev
    case Arm(pane, _) => pane !in w.armed
    case Fires(t) => t in w.timers
    case _ => true
  }

  function Next(w: World, ev: Event): World {
    if !Possible(w, ev) then w
    else match ev
      case Arm(pane, command) => w.(pending := w.pending[pane := Pending(command, 0)], armed := w.armed + {pane})
      case Output(pane) =>
        if pane !in w.pending then w
        else
          var n := w.pending[pane].batches + 1;
          w.(pending := w.pending[pane := w.pending[pane].(batches := n)],
              timers := w.timers + multiset{Timer(pane, n)})
      case Fires(t) =>
        var rest := w.timers - multiset{t};
        if t.pane !in w.pending || w.pending[t.pane].batches != t.armedAt then w.(timers := rest)
        else w.(timers := rest, pending := w.pending - {t.pane},
                sent := if t.pane in w.closed then w.sent else w.sent + [(t.pane, w.pending[t.pane].command)])
      case Closes(pane) => w.(closed := w.closed + {pane})
  }

  function Run(evs: seq<Event>, n: nat): World
    requires n <= |evs|
  {
    if n == 0 then Start else Next(Run(evs, n - 1), evs[n - 1])
  }

  /** A timer that runs out is gone, and no other. */
  lemma TimersRunOutOnce(w: World, t: Timer)
    requires t in w.timers
    ensures Next(w, Fires(t)).timers == w.timers - multiset{t}
  {}

  // ----- What a log of events says -----

  /** The command a pane was armed with. */
  function Armed(evs: seq<Event>, n: nat, pane: Pane): Option<Text>
    requires n <= |evs|
  {
    if n == 0 then None
    else if Armed(evs, n - 1, pane).Some? then Armed(evs, n - 1, pane)
    else match evs[n - 1]
      case Arm(p, command) => if p == pane then Some(command) else None
      case _ => None
  }

  /** Output batches of the pane since it was armed. */
  function Batches(evs: seq<Event>, n: nat, pane: Pane): nat
    requires n <= |evs|
  {
    if n == 0 then 0
    else Batches(evs, n - 1, pane) + if evs[n - 1] == Output(pane) && Armed(evs, n - 1, pane).Some? then 1 else 0
  }

  /** Event `m` is a timer of the pane's newest batch running out. */
  predicate Quiet(evs: seq<Event>, m: nat, pane: Pane)
    requires m < |evs|
  {
    && evs[m].Fires? && evs[m].timer in Run(evs, m).timers
    && evs[m].timer == Timer(pane, Batches(evs, m, pane))
  }

  /** The first time the pane went quiet. */
  function QuietAt(evs: seq<Event>, n: nat, pane: Pane): (m: Option<nat>)
    requires n <= |evs|
    ensures m.Some? ==> m.value < n && Quiet(evs, m.value, pane)
    ensures forall k :: 0 <= k < (if m.Some? then m.value else n) ==> !Quiet(evs, k, pane)
  {
    if n == 0 then None
    else if QuietAt(evs, n - 1, pane).Some? then QuietAt(evs, n - 1, pane)
    else if Quiet(evs, n - 1, pane) then Some(n - 1)
    else None
  }

  predicate Closed(evs: seq<Event>, m: nat, pane: Pane)
    requires m <= |evs|
  {
    exists k :: 0 <= k < m && evs[k] == Closes(pane)
  }

  /** What has been sent to one pane. */
  function SentTo(sent: seq<(Pane, Text)>, pane: Pane): seq<Text> {
    if sent == [] then []
    else
      var before, last := SentTo(sent[..|sent| - 1], pane), sent[|sent| - 1];
      if last.0 == pane then before + [last.1] else before
  }

  // ----- Runs -----

  /** Until its pane goes quiet a command is parked, its batches counted and the newest one's timer running. */
  ghost predicate ParkedOk(w: World, pane: Pane, armed: Option<Text>, batches: nat) {
    && SentTo(w.sent, pane) == []
    && (pane in w.armed <==> armed.Some?) && (pane in w.pending <==> armed.Some?)
    && (armed.Some? ==> w.pending[pane] == Pending(armed.value, batches))
    && (forall t :: t in w.timers && t.pane == pane ==> 1 <= t.armedAt <= batches)
    && (batches > 0 ==> w.timers[Timer(pane, batches)] == 1)
  }

  /** Afterwards it is sent, once, unless the pane had closed. */
  ghost predicate OverOk(w: World, pane: Pane, armed: Option<Text>, wasClosed: bool) {
    && armed.Some? && pane in w.armed && pane !in w.pending
    && SentTo(w.sent, pane) == if wasClosed then [] else [armed.value]
  }

  lemma FireSends(w: World, t: Timer, pane: Pane)
    requires t in w.timers
    ensures var r := Next(w, Fires(t));
            var due := t.pane == pane && pane in w.pending && w.pending[pane].batches == t.armedAt;
            && (pane in r.pending <==> pane in w.pending && !due)
            && SentTo(r.sent, pane)
               == SentTo(w.sent, pane) + if due && pane !in w.closed then [w.pending[pane].command] else []
  {
    if t.pane in w.pending {
      assert (w.sent + [(t.pane, w.pending[t.pane].command)])[..|w.sent|] == w.sent;
    }
  }

  lemma ParkedStep(w: World, ev: Event, pane: Pane, armed: Option<Text>, batches: nat)
    requires ParkedOk(w, pane, armed, batches) && (armed.None? ==> batches == 0)
    ensures var r := Next(w, ev);
            var armedNow := if armed.None? && ev.Arm? && ev.pane == pane then Some(ev.command) else armed;
            var batchesNow := batches + if ev == Output(pane) && armed.Some? then 1 else 0;
            if ev.Fires? && ev.timer in w.timers && ev.timer == Timer(pane, batches) then
              OverOk(r, pane, armed, pane in w.closed)
            else ParkedOk(r, pane, armedNow, batchesNow)
  {
    if ev.Fires? && ev.timer in w.timers {
      FireSends(w, ev.timer, pane);
    }
  }

  lemma OverStep(w: World, ev: Event, pane: Pane, armed: Option<Text>, wasClosed: bool)
    requires OverOk(w, pane, armed, wasClosed)
    ensures OverOk(Next(w, ev), pane, armed, wasClosed)
  {
    if ev.Fires? && ev.timer in w.timers {
      FireSends(w, ev.timer, pane);
    }
  }

  lemma ClosedStep(w: World, ev: Event, pane: Pane)
    ensures pane in Next(w, ev).closed <==> pane in w.closed || ev == Closes(pane)
  {}

  lemma {:induction false} ClosedIsLogged(evs: seq<Event>, n: nat, pane: Pane)
    requires n <= |evs|
    ensures pane in Run(evs, n).closed <==> Closed(evs, n, pane)
  {
    if n > 0 {
      ClosedIsLogged(evs, n - 1, pane);
      ClosedStep(Run(evs, n - 1), evs[n - 1], pane);
      assert Closed(evs, n, pane) <==> Closed(evs, n - 1, pane) || evs[n - 1] == Closes(pane);
    }
  }

  ghost predicate PaneOk(evs: seq<Event>, n: nat, pane: Pane)
    requires n <= |evs|
  {
    match QuietAt(evs, n, pane)
    case None => ParkedOk(Run(evs, n), pane, Armed(evs, n, pane), Batches(evs, n, pane))
    case Some(m) => OverOk(Run(evs, n), pane, Armed(evs, n, pane), Closed(evs, m, pane))
  }

  lemma {:induction false} UnarmedIsSilent(evs: seq<Event>, n: nat, pane: Pane)
    requires n <= |evs| && Armed(evs, n, pane).None?
    ensures Batches(evs, n, pane) == 0
  {
    if n > 0 {
      UnarmedIsSilent(evs, n - 1, pane);
    }
  }

  lemma ParkedPaneStaysOk(evs: seq<Event>, n: nat, pane: Pane)
    requires n < |evs| && QuietAt(evs, n, pane).None? && PaneOk(evs, n, pane)
    ensures PaneOk(evs, n + 1, pane)
  {
    var armed := Armed(evs, n, pane);
    ClosedIsLogged(evs, n, pane);
    if armed.None? {
      UnarmedIsSilent(evs, n, pane);
    }
    ParkedStep(Run(evs, n), evs[n], pane, armed, Batches(evs, n, pane));
    assert Armed(evs, n + 1, pane)
        == if armed.None? && evs[n].Arm? && evs[n].pane == pane then Some(evs[n].command) else armed;
  }

  lemma SentPaneStaysOk(evs: seq<Event>, n: nat, pane: Pane)
    requires n < |evs| && QuietAt(evs, n, pane).Some? && PaneOk(evs, n, pane)
    ensures PaneOk(evs, n + 1, pane)
  {
    OverStep(Run(evs, n), evs[n], pane, Armed(evs, n, pane), Closed(evs, QuietAt(evs, n, pane).value, pane));
  }

  lemma {:induction false} PanesStayOk(evs: seq<Event>, n: nat, pane: Pane)
    requires n <= |evs|
    ensures PaneOk(evs, n, pane)
  {
    if n > 0 {
      PanesStayOk(evs, n - 1, pane);
      if QuietAt(evs, n - 1, pane).None? {
        ParkedPaneStaysOk(evs, n - 1, pane);
      } else {
        SentPaneStaysOk(evs, n - 1, pane);
      }
    }
  }

  /**
   Over any interleaving of output, timers and closings, what a pane has been sent
   is its startup command, once, from the moment its output first went quiet - and
   nothing before that, nor ever if the pane had closed by then.
   */
  lemma SentOnceAndQuietly(evs: seq<Event>, n: nat, pane: Pane)
    requires n <= |evs|
    ensures SentTo(Run(evs, n).sent, pane) ==
            match QuietAt(evs, n, pane)
            case None => []
            case Some(m) => if Closed(evs, m, pane) then [] else [Armed(evs, n, pane).GetOr([])]
  {
    PanesStayOk(evs, n, pane);
  }

  /** Once a pane's timers have run out it has gone quiet, exactly if it ever printed. */
  lemma SilenceIsQuiet(evs: seq<Event>, n: nat, pane: Pane)
    requires n <= |evs| && forall t :: t in Run(evs, n).timers ==> t.pane != pane
    ensures QuietAt(evs, n, pane).Some? <==> Batches(evs, n, pane) > 0
  {
    PanesStayOk(evs, n, pane);
    var quiet := QuietAt(evs, n, pane);
    if quiet.Some? {
      PanesStayOk(evs, quiet.value, pane);
      BatchesGrow(evs, quiet.value, n, pane);
    }
  }

  lemma {:induction false} BatchesGrow(evs: seq<Event>, m: nat, n: nat, pane: Pane)
    requires m <= n <= |evs|
    ensures Batches(evs, m, pane) <= Batches(evs, n, pane)
    decreases n
  {
    if m < n {
      BatchesGrow(evs, m, n - 1, pane);
    }
  }

  // ----- The handlers, on the app's map of parked commands -----

  lemma {:induction false} RunPrefix(evs: seq<Event>, ev: Event, n: nat)
    requires n <= |evs|
    ensures Run(evs + [ev], n) == Run(evs, n)
  {
    if n > 0 {
      RunPrefix(evs, ev, n - 1);
      assert (evs + [ev])[n - 1] == evs[n - 1];
    }
  }

  lemma {:induction false} CountsPrefix(evs: seq<Event>, ev: Event, n: nat, pane: Pane)
    requires n <= |evs|
    ensures Armed(evs + [ev], n, pane) == Armed(evs, n, pane) && Batches(evs + [ev], n, pane) == Batches(evs, n, pane)
  {
    if n > 0 {
      CountsPrefix(evs, ev, n - 1, pane);
      assert (evs + [ev])[n - 1] == evs[n - 1];
    }
  }

  lemma Logged(log: seq<Event>, ev: Event, pane: Pane)
    ensures Run(log + [ev], |log| + 1) == Next(Run(log, |log|), ev)
    ensures Batches(log + [ev], |log| + 1, pane) ==
            Batches(log, |log|, pane) + if ev == Output(pane) && Armed(log, |log|, pane).Some? then 1 else 0
  {
    RunPrefix(log, ev, |log|);
    CountsPrefix(log, ev, |log|, pane);
    assert (log + [ev])[|log|] == ev;
  }

  /** A command is parked from its arming until its pane goes quiet. */
  lemma ParkedExactly(log: seq<Event>, pane: Pane)
    ensures var w := Run(log, |log|);
            && (pane in w.pending <==> Armed(log, |log|, pane).Some? && QuietAt(log, |log|, pane).None?)
            && (pane in w.pending ==>
                 w.pending[pane] == Pending(Armed(log, |log|, pane).value, Batches(log, |log|, pane)))
  {
    PanesStayOk(log, |log|, pane);
  }

  /** A batch of output sets a timer, numbered as the batch, exactly while a command is parked. */
  predicate Noted(log: seq<Event>, pane: Pane, armedAt: Option<nat>) {
    && (armedAt.Some? <==> Armed(log, |log|, pane).Some? && QuietAt(log, |log|, pane).None?)
    && (armedAt.Some? ==> armedAt.value == Batches(log, |log|, pane) + 1
                          && Timer(pane, armedAt.value) in Next(Run(log, |log|), Output(pane)).timers)
  }

  lemma OutputNoted(log: seq<Event>, pane: Pane)
    ensures var w := Run(log, |log|);
            Noted(log, pane, if pane in w.pending then Some(w.pending[pane].batches + 1) else None)
  {
    ParkedExactly(log, pane);
  }

  /** A timer running out types the command exactly when its pane has just gone quiet and is still open. */
  predicate Fired(log: seq<Event>, t: Timer, line: Option<Text>) {
    var after := log + [Fires(t)];
    var due := QuietAt(log, |log|, t.pane).None? && t.armedAt == Batches(log, |log|, t.pane);
    && line == (if due && !Closed(log, |log|, t.pane) then Armed(log, |log|, t.pane) else None)
    && SentTo(Run(after, |after|).sent, t.pane)
       == SentTo(Run(log, |log|).sent, t.pane) + if line.Some? then [line.value] else []
  }

  /** A timer finds its command parked with its own count exactly when its pane has just gone quiet. */
  lemma DueExactly(log: seq<Event>, t: Timer)
    requires t in Run(log, |log|).timers
    ensures var w := Run(log, |log|);
            var due := t.pane in w.pending && w.pending[t.pane].batches == t.armedAt;
            && (QuietAt(log, |log|, t.pane).None? && t.armedAt == Batches(log, |log|, t.pane) ==>
                  (due <==> Armed(log, |log|, t.pane).Some?))
            && (due ==> QuietAt(log, |log|, t.pane).None? && t.armedAt == Batches(log, |log|, t.pane)
                        && Armed(log, |log|, t.pane) == Some(w.pending[t.pane].command))
  {
    ParkedExactly(log, t.pane);
  }

  lemma RunLogged(log: seq<Event>, ev: Event)
    ensures Run(log + [ev], |log + [ev]|) == Next(Run(log, |log|), ev)
  {
    RunPrefix(log, ev, |log|);
  }

  lemma FireDecides(log: seq<Event>, t: Timer)
    requires t in Run(log, |log|).timers
    ensures var w := Run(log, |log|);
            var due := t.pane in w.pending && w.pending[t.pane].batches == t.armedAt;
            Fired(log, t, if due && !Closed(log, |log|, t.pane) then Some(w.pending[t.pane].command) else None)
  {
    RunLogged(log, Fires(t));
    DueExactly(log, t);
    ClosedIsLogged(log, |log|, t.pane);
    FireSends(Run(log, |log|), t, t.pane);
  }

  lemma OutputCounts(w: World, pane: Pane)
    ensures Next(w, Output(pane)).pending
         == if pane in w.pending then w.pending[pane := w.pending[pane].(batches := w.pending[pane].batches + 1)]
            else w.pending
  {}

  class Parked {
    var pending: map<Pane, Pending>
    ghost var log: seq<Event>

    ghost predicate Valid()
      reads this
    {
      pending == Run(log, |log|).pending
    }

    constructor ()
      ensures Valid() && log == []
    {
      pending, log := map[], [];
    }

    method ArmStartup(pane: Pane, command: Text)
      requires Valid() && pane !in Run(log, |log|).armed
      modifies this
      ensures Valid() && log == old(log) + [Arm(pane, command)]
      ensures Armed(log, |log|, pane) == Some(command) && QuietAt(log, |log|, pane).None?
      ensures pane in pending && pending[pane] == Pending(command, Batches(log, |log|, pane))
    {
      Logged(log, Arm(pane, command), pane);
      pending := pending[pane := Pending(command, 0)];
      log := log + [Arm(pane, command)];
      ParkedExactly(log, pane);
    }

    /** Count a batch; the number returned is the timer to set. */
    method NoteOutput(pane: Pane) returns (armedAt: Option<nat>)
      requires Valid()
      modifies this
      ensures Valid() && log == old(log) + [Output(pane)]
      ensures Noted(old(log), pane, armedAt)
    {
      OutputNoted(log, pane);
      OutputCounts(Run(log, |log|), pane);
      Logged(log, Output(pane), pane);
      log := log + [Output(pane)];
      if pane !in pending {
        return None;
      }
      var p := pending[pane];
      pending := pending[pane := p.(batches := p.batches + 1)];
      armedAt := Some(p.batches + 1);
    }

    ghost method PaneCloses(pane: Pane)
      requires Valid()
      modifies this`log
      ensures Valid() && log == old(log) + [Closes(pane)]
    {
      Logged(log, Closes(pane), pane);
      log := log + [Closes(pane)];
    }

    /** A timer expired; the line returned is what to type. */
    method FireStartup(pane: Pane, armedAt: nat, open: bool) returns (line: Option<Text>)
      requires Valid() && Timer(pane, armedAt) in Run(log, |log|).timers && (open <==> !Closed(log, |log|, pane))
      modifies this
      ensures Valid() && log == old(log) + [Fires(Timer(pane, armedAt))]
      ensures Fired(old(log), Timer(pane, armedAt), line)
    {
      ghost var t := Timer(pane, armedAt);
      FireDecides(log, t);
      Logged(log, Fires(t), pane);
      log := log + [Fires(t)];
      if pane !in pending || pending[pane].batches != armedAt {
        return None;
      }
      var command := pending[pane].command;
      pending := pending - {pane};
      line := if open then Some(command) else None;
    }
  }
}
