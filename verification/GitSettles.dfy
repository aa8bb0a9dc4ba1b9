/** Whole schedules of Git rounds, as runs of commands: what settles, and what stays quiet after. */
module GitSettles {
  import opened Records
  import opened GitDevice
  import opened GitSync
  import opened GitRounds
  import opened SyncSchedules
  import Rounds = SyncRounds

  /** All rounds over, on a branch whose tip is signed as it is written. */
  ghost predicate Resting(s: System) {
    && s.remote != [] && Tip(s.remote).signature == SignatureOf(Tip(s.remote).snapshot)
    && forall d :: 0 <= d < |s.devices| ==> s.devices[d].phase.Idle?
  }

  /** The commands of the first `n` rounds of a schedule. */
  function Commands(sched: seq<nat>, clock: seq<Stamp>, n: nat): (evs: seq<Event>)
    requires n <= |sched| == |clock|
    ensures |evs| == 8 * n
  {
    if n == 0 then [] else Commands(sched, clock, n - 1) + RoundEvents(sched[n - 1], clock[n - 1])
  }

  lemma OneMoreRound(s: System, sched: seq<nat>, clock: seq<Stamp>, n: nat)
    requires n < |sched| == |clock|
    ensures Run(s, Commands(sched, clock, n + 1), 8 * n + 8)
         == Run(Run(s, Commands(sched, clock, n), 8 * n), RoundEvents(sched[n], clock[n]), 8)
  {
    RunConcat(s, Commands(sched, clock, n), RoundEvents(sched[n], clock[n]), 8);
  }

  lemma RoundFromRest(s: System, d: nat, now: Stamp)
    requires Resting(s) && d < |s.devices|
    ensures |RoundEvents(d, now)| == 8
    ensures var r := Run(s, RoundEvents(d, now), 8);
            Resting(r) && WorldOf(r) == Rounds.Round(WorldOf(s), d, now)
  {
    CommandsMakeTheRound(s, d, now);
  }

  /** After `n` rounds, command by command, the system is at rest in the world of `n` abstract rounds. */
  ghost predicate Follows(s: System, sched: seq<nat>, clock: seq<Stamp>, n: nat)
    requires s.remote != [] && n <= |sched| == |clock| && Rounds.Schedule(WorldOf(s), sched)
  {
    var r := Run(s, Commands(sched, clock, n), 8 * n);
    Resting(r) && WorldOf(r) == Rounds.After(WorldOf(s), sched, clock, n)
  }

  lemma FollowsOn(s: System, sched: seq<nat>, clock: seq<Stamp>, n: nat)
    requires s.remote != [] && n < |sched| == |clock| && Rounds.Schedule(WorldOf(s), sched)
    requires Follows(s, sched, clock, n)
    ensures Follows(s, sched, clock, n + 1)
  {
    OneMoreRound(s, sched, clock, n);
    RoundFromRest(Run(s, Commands(sched, clock, n), 8 * n), sched[n], clock[n]);
  }

  /** Command by command a schedule of uncontended rounds does what its abstract rounds do, and ends at rest. */
  lemma {:induction false} ScheduleRuns(s: System, sched: seq<nat>, clock: seq<Stamp>, n: nat)
    requires Resting(s) && n <= |sched| == |clock| && Rounds.Schedule(WorldOf(s), sched)
    ensures Follows(s, sched, clock, n)
  {
    if n > 0 {
      ScheduleRuns(s, sched, clock, n - 1);
      FollowsOn(s, sched, clock, n - 1);
    }
  }

  /** Run on this schedule, the system ends with every vault and the published snapshot at the join of all of them. */
  ghost predicate SystemSettles(s: System, sched: seq<nat>, clock: seq<Stamp>) {
    s.remote != [] && |clock| == |sched| ==>
      var r := Run(s, Commands(sched, clock, |sched|), 8 * |sched|);
      r.remote != [] && Rounds.SettledAt(WorldOf(r), Rounds.Total(WorldOf(s)))
  }

  /** A resting system of `n` devices with no deletion left to apply. */
  ghost predicate SafeSystem(s: System, n: nat) {
    Resting(s) && |s.devices| == n && Rounds.Coherent(WorldOf(s)) && Rounds.Safe(WorldOf(s))
  }

  /** A system at rest in a given world. */
  function SystemOf(w: Rounds.World): System {
    System([Commit(w.remote, SignatureOf(w.remote), 0)],
           seq(|w.vaults|, d requires 0 <= d < |w.vaults| => FreshClone(d, w.vaults[d])))
  }

  lemma SystemOfRests(w: Rounds.World)
    ensures Resting(SystemOf(w)) && WorldOf(SystemOf(w)) == w && |SystemOf(w).devices| == |w.vaults|
  {
    assert WorldOf(SystemOf(w)).vaults == w.vaults;
  }

  /**
   A schedule of uncontended rounds, command by command, settles every safe system
   of `n` devices exactly when every device runs and every other one runs again
   after its first round.
   */
  lemma SystemSettlesExactly(sched: seq<nat>, n: nat)
    requires n >= 1 && forall i :: 0 <= i < |sched| ==> sched[i] < n
    ensures Hears(sched, n) <==>
            forall s: System, clock: seq<Stamp> ::
              SafeSystem(s, n) && |clock| == |sched| ==> SystemSettles(s, sched, clock)
  {
    SettlesExactly(sched, n);
    if Hears(sched, n) {
      forall s: System, clock: seq<Stamp> | SafeSystem(s, n) && |clock| == |sched|
        ensures SystemSettles(s, sched, clock)
      {
        assert Settles(WorldOf(s), sched, clock);
        ScheduleRuns(s, sched, clock, |sched|);
      }
    }
    if forall s: System, clock: seq<Stamp> :: SafeSystem(s, n) && |clock| == |sched| ==>
        SystemSettles(s, sched, clock) {
      forall w: Rounds.World, clock: seq<Stamp> |
        |w.vaults| == n && Rounds.Coherent(w) && Rounds.Safe(w) && |clock| == |sched|
        ensures Settles(w, sched, clock)
      {
        SystemOfRests(w);
        assert SystemSettles(SystemOf(w), sched, clock);
        ScheduleRuns(SystemOf(w), sched, clock, |sched|);
      }
    }
  }

  /** And once settled, no later round changes a vault or adds a commit. */
  lemma SettledAddsNothing(s: System, top: Vault, d: nat, now: Stamp)
    requires Resting(s) && d < |s.devices| && Rounds.SettledAt(WorldOf(s), top)
    ensures var r := Run(s, RoundEvents(d, now), |RoundEvents(d, now)|);
            r.remote != [] && |r.remote| == |s.remote| && WorldOf(r) == WorldOf(s)
  {
    CommandsMakeTheRound(s, d, now);
    Rounds.SettledIsQuiet(WorldOf(s), top, d, now);
  }
}
