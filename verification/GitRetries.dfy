/**
 When a round ends: after the third push that is not known to have been taken,
 never after the second, at the first command that fails, at a signature that
 already matches, or at a push that is known to have been taken.
 */
module GitRetries {
  import opened Options
  import opened Records
  import opened GitDevice
  import opened GitSync

  /** A push the device is not told was taken. */
  predicate Lost(ev: Event) { ev.Push? && !ev.reply.Accepted? }

  /** The event happens to device `d`. */
  predicate Befalls(s: System, ev: Event, d: nat) { !ev.Elsewhere? && ev.d == d && Enabled(s, ev) }

  /** How many pushes device `d` has lost since its round began. */
  function LostPushes(s: System, evs: seq<Event>, n: nat, d: nat): nat
    requires n <= |evs|
  {
    if n == 0 then 0
    else
      var before, ev := LostPushes(s, evs, n - 1, d), evs[n - 1];
      if !Befalls(Run(s, evs, n - 1), ev, d) then before
      else if ev.Start? then 0
      else if Lost(ev) then before + 1
      else before
  }

  function AttemptOf(phase: Phase): nat {
    match phase
    case Idle => 0
    case Fetching(k) => k
    case Resetting(k) => k
    case Merging(k) => k
    case Comparing(k) => k
    case Writing(k, _) => k
    case Committing(k) => k
    case Pushing(k) => k
  }

  /** A round under way is at the attempt its lost pushes say, and has lost at most two. */
  lemma {:induction false} LostPushesAreAttempts(s: System, evs: seq<Event>, n: nat, d: nat)
    requires n <= |evs| && d < |s.devices| && s.devices[d].phase.Idle?
    ensures var v := Run(s, evs, n).devices[d];
            !v.phase.Idle? ==> AttemptOf(v.phase) == LostPushes(s, evs, n, d) <= 2
  {
    if n > 0 {
      LostPushesAreAttempts(s, evs, n - 1, d);
    }
  }

  /** The event is a command of the round that fails. */
  predicate Fails(v: Device, ev: Event) {
    match ev
    case Reset(_, ok) => !ok && v.tracking.Some? && v.tracking.value != []
    case MergeFile(_, ok, _) => !ok && v.snapshotFile.Some?
    case Write(_, complete) => !complete
    case MakeCommit(_, ok) => !ok
    case _ => false
  }

  /** What an event that ends a round under way makes of it. */
  function Ending(v: Device, ev: Event, lost: nat): Option<Outcome> {
    if Fails(v, ev) || (Lost(ev) && lost == 2) then Some(Failed)
    else if ev.Compare? && v.signatureFile == Some(SignatureOf(v.vault)) then Some(Unchanged)
    else if ev.Push? && ev.reply.Accepted? then Some(Pushed)
    else None
  }

  /**
   Over every run: a round under way ends with an event exactly when a command
   fails, the signature in the working copy is the vault's, a push is taken and the
   answer heard, or a push is lost and two were lost before it; and it ends as what
   ended it says. A first and a second lost push put it back to the fetch.
   */
  lemma RoundEndsExactly(s: System, evs: seq<Event>, n: nat, d: nat)
    requires n < |evs| && d < |s.devices| && s.devices[d].phase.Idle?
    requires Befalls(Run(s, evs, n), evs[n], d) && !Run(s, evs, n).devices[d].phase.Idle?
    ensures var v, w, lost := Run(s, evs, n).devices[d], Run(s, evs, n + 1).devices[d], LostPushes(s, evs, n, d);
            && (w.phase.Idle? <==> Ending(v, evs[n], lost).Some?)
            && (w.phase.Idle? ==> Some(w.outcome) == Ending(v, evs[n], lost))
            && (Lost(evs[n]) && lost < 2 ==> w == v.(phase := Fetching(lost + 1)))
  {
    LostPushesAreAttempts(s, evs, n, d);
  }
}
