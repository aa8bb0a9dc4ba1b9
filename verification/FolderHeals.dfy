/** Whole schedules of folder rounds, as runs of events: overwrites heal. */
module FolderHeals {
  import opened Records
  import opened SyncRounds
  import opened SyncSchedules
  import opened FolderSync

  /** All rounds over, and the target not torn. */
  ghost predicate Resting(f: Folder) {
    TargetWhole(f) && forall d :: 0 <= d < |f.devices| ==> f.devices[d].phase.Idle?
  }

  /** The events of the first `n` rounds of a schedule. */
  function Events(sched: seq<nat>, clock: seq<Stamp>, n: nat): (evs: seq<Event>)
    requires n <= |sched| == |clock|
    ensures |evs| == 7 * n
  {
    if n == 0 then [] else Events(sched, clock, n - 1) + RoundEvents(sched[n - 1], clock[n - 1])
  }

  lemma OneMoreRound(f: Folder, sched: seq<nat>, clock: seq<Stamp>, n: nat)
    requires n < |sched| == |clock|
    ensures FolderSync.Run(f, Events(sched, clock, n + 1), 7 * n + 7)
         == FolderSync.Run(FolderSync.Run(f, Events(sched, clock, n), 7 * n), RoundEvents(sched[n], clock[n]), 7)
  {
    RunConcat(f, Events(sched, clock, n), RoundEvents(sched[n], clock[n]), 7);
  }

  /** Event by event a schedule of uninterrupted rounds does what its abstract rounds do, and ends at rest. */
  lemma {:induction false} ScheduleRuns(f: Folder, sched: seq<nat>, clock: seq<Stamp>, n: nat)
    requires Resting(f) && n <= |sched| == |clock| && Schedule(WorldOf(f), sched)
    ensures var r := FolderSync.Run(f, Events(sched, clock, n), 7 * n);
            Resting(r) && WorldOf(r) == FolderAfter(WorldOf(f), sched, clock, n)
  {
    if n > 0 {
      ScheduleRuns(f, sched, clock, n - 1);
      OneMoreRound(f, sched, clock, n - 1);
      EventsMakeTheRound(FolderSync.Run(f, Events(sched, clock, n - 1), 7 * (n - 1)), sched[n - 1], clock[n - 1]);
    }
  }

  /**
   However rounds overlapped and overwrote each other before, once they are over a
   run of uninterrupted rounds in which every device hears every other brings every
   vault and the target to the join of all vaults, and that join holds everything
   ever installed.
   */
  lemma OverwritesHeal(f: Folder, sched: seq<nat>, clock: seq<Stamp>, i: nat)
    requires FolderOk(f) && Resting(f) && f.devices != []
    requires Coherent(WorldOf(f)) && Safe(WorldOf(f))
    requires Schedule(WorldOf(f), sched) && Hears(sched, |f.devices|) && |clock| == |sched|
    requires i < |f.installed|
    ensures var r := FolderSync.Run(f, Events(sched, clock, |sched|), 7 * |sched|);
            Resting(r) && SettledAt(WorldOf(r), Total(WorldOf(f)))
    ensures Leq(f.installed[i].snapshot, Total(WorldOf(f)))
  {
    var w := WorldOf(f);
    ScheduleRuns(f, sched, clock, |sched|);
    SafeFolderAfter(w, sched, clock, |sched|);
    HearingSettles(w, sched, clock);
    JoinToIsUpperBound(w, |w.vaults|);
    var a := f.installed[i].author;
    LeqTransitive(f.installed[i].snapshot, w.vaults[a], Total(w));
  }
}
