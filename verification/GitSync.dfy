/**
 Any number of devices syncing through one Git remote, their rounds interleaved
 command by command.
 */
module GitSync {
  import opened Options
  import opened Records
  import opened GitDevice

  datatype System = System(remote: Chain, devices: seq<Device>)

  predicate Enabled(s: System, ev: Event) {
    if ev.Elsewhere? then true
    else ev.d < |s.devices| && Ready(s.devices[ev.d], s.remote, ev)
  }

  /** One step; an event whose moment has not come changes nothing. */
  function Next(s: System, ev: Event): System {
    if !Enabled(s, ev) then s
    else if ev.Elsewhere? then s.(remote := s.remote + ev.commits)
    else
      var v := s.devices[ev.d];
      System(ActRemote(v, s.remote, ev), s.devices[ev.d := Act(v, s.remote, ev)])
  }

  /** The system after the first `n` events. */
  function Run(s: System, evs: seq<Event>, n: nat): (r: System)
    requires n <= |evs|
    ensures |r.devices| == |s.devices|
  {
    if n == 0 then s else Next(Run(s, evs, n - 1), evs[n - 1])
  }

  // ----- History is only ever extended -----

  lemma NextExtendsRemote(s: System, ev: Event)
    ensures s.remote <= Next(s, ev).remote
  {}

  /** Whatever fails, races or is retried, no accepted commit ever leaves the branch. */
  lemma {:induction false} HistoryIsNeverRewritten(s: System, evs: seq<Event>, m: nat, n: nat)
    requires m <= n <= |evs|
    ensures Run(s, evs, m).remote <= Run(s, evs, n).remote
    decreases n
  {
    if m < n {
      HistoryIsNeverRewritten(s, evs, m, n - 1);
      NextExtendsRemote(Run(s, evs, n - 1), evs[n - 1]);
    }
  }

  // ----- The invariant -----

  ghost predicate SystemOk(s: System) {
    && Climbing(s.remote) && Honest(s.remote)
    && forall d :: 0 <= d < |s.devices| ==> DeviceOk(s.devices[d], s.remote)
  }

  /** Clones just made of a branch that climbs are a good start. */
  lemma ClonesAreOk(s: System)
    requires Climbing(s.remote) && Honest(s.remote)
    requires forall d :: 0 <= d < |s.devices| ==>
               s.devices[d].phase.Idle? && s.devices[d] == DoReclone(s.devices[d], s.remote)
    ensures SystemOk(s)
  {
    forall d | 0 <= d < |s.devices|
      ensures DeviceOk(s.devices[d], s.remote)
    {
      assert s.devices[d] == DoReclone(s.devices[d], s.remote);
    }
  }

  /** Pushes from outside the modelled devices extend the branch upwards, as theirs do. */
  ghost predicate WellClocked(s: System, ev: Event) {
    if ev.Elsewhere? then Climbing(s.remote + ev.commits) && Honest(s.remote + ev.commits)
    else Enabled(s, ev) ==> ActsWell(s.devices[ev.d], ev)
  }

  lemma NextKeeps(s: System, ev: Event)
    requires SystemOk(s) && WellClocked(s, ev)
    ensures SystemOk(Next(s, ev))
  {
    var r := Next(s, ev);
    if Enabled(s, ev) && !ev.Elsewhere? {
      ActKeeps(s.devices[ev.d], s.remote, ev);
    }
    forall d | 0 <= d < |r.devices|
      ensures DeviceOk(r.devices[d], r.remote)
    {
      if r.devices[d] == s.devices[d] {
        NextExtendsRemote(s, ev);
      }
    }
  }

  // ----- No lost update -----

  ghost predicate ClockedAt(s: System, evs: seq<Event>, i: nat)
    requires i < |evs|
  {
    WellClocked(Run(s, evs, i), evs[i])
  }

  ghost predicate RunsWellClocked(s: System, evs: seq<Event>, n: nat)
    requires n <= |evs|
  {
    forall i {:trigger ClockedAt(s, evs, i)} :: 0 <= i < n ==> ClockedAt(s, evs, i)
  }

  lemma {:induction false} RunKeeps(s: System, evs: seq<Event>, n: nat)
    requires n <= |evs| && SystemOk(s) && RunsWellClocked(s, evs, n)
    ensures SystemOk(Run(s, evs, n)) && |Run(s, evs, n).devices| == |s.devices|
  {
    if n > 0 {
      RunKeeps(s, evs, n - 1);
      assert ClockedAt(s, evs, n - 1);
      NextKeeps(Run(s, evs, n - 1), evs[n - 1]);
    }
  }

  /**
   In any interleaving of rounds by any number of devices, with stale or failed
   fetches, refused pushes, lost answers and edits at any moment: whatever
   snapshot was ever published, the one published now is at or above it.
   */
  lemma NoLostUpdate(s: System, evs: seq<Event>, m: nat, n: nat)
    requires m <= n <= |evs| && SystemOk(s) && RunsWellClocked(s, evs, n)
    requires Run(s, evs, m).remote != []
    ensures Run(s, evs, n).remote != []
    ensures Leq(Tip(Run(s, evs, m).remote).snapshot, Tip(Run(s, evs, n).remote).snapshot)
  {
    RunKeeps(s, evs, n);
    HistoryIsNeverRewritten(s, evs, m, n);
    var before, after := Run(s, evs, m).remote, Run(s, evs, n).remote;
    assert after[|before| - 1] == before[|before| - 1];
    ClimbingFromTo(after, |before| - 1, |after| - 1);
  }

  ghost predicate Rises(s: System, evs: seq<Event>, i: nat, d: nat)
    requires i < |evs| && d < |s.devices|
  {
    Leq(Run(s, evs, i).devices[d].vault, Run(s, evs, i + 1).devices[d].vault)
  }

  lemma {:induction false} RisingRun(s: System, evs: seq<Event>, m: nat, n: nat, d: nat)
    requires m <= n <= |evs| && d < |s.devices|
    requires forall i :: m <= i < n ==> Rises(s, evs, i, d)
    ensures Leq(Run(s, evs, m).devices[d].vault, Run(s, evs, n).devices[d].vault)
    decreases n
  {
    if m < n {
      RisingRun(s, evs, m, n - 1, d);
      assert Rises(s, evs, n - 1, d);
      LeqTransitive(Run(s, evs, m).devices[d].vault, Run(s, evs, n - 1).devices[d].vault,
          Run(s, evs, n).devices[d].vault);
    }
  }

  /** And no device's own vault ever drops a record or goes back to an older version of one. */
  lemma NoVaultGoesBack(s: System, evs: seq<Event>, m: nat, n: nat, d: nat)
    requires m <= n <= |evs| && SystemOk(s) && RunsWellClocked(s, evs, n) && d < |s.devices|
    ensures Leq(Run(s, evs, m).devices[d].vault, Run(s, evs, n).devices[d].vault)
  {
    forall i | m <= i < n
      ensures Rises(s, evs, i, d)
    {
      RunKeeps(s, evs, i);
      assert ClockedAt(s, evs, i);
    }
    RisingRun(s, evs, m, n, d);
  }

  // ----- What an Ok means -----

  /**
   A round that ends because the signatures match, on a clone that tracks the
   remote branch, has nothing unpublished: every record of its vault is on the
   branch, at its millisecond or a later one.
   */
  lemma UnchangedMeansPublished(s: System, d: nat)
    requires SystemOk(s) && d < |s.devices| && s.devices[d].phase.Comparing? && s.devices[d].tracking.Some?
    requires Next(s, Compare(d)).devices[d].outcome.Unchanged? && Next(s, Compare(d)).devices[d].phase.Idle?
    ensures s.remote != []
    ensures SignatureLeq(SignatureOf(s.devices[d].vault), SignatureOf(Tip(s.remote).snapshot))
  {
    var v := s.devices[d];
    assert DeviceOk(v, s.remote);
    var tracked := v.tracking.value;
    assert s.remote[|tracked| - 1] == Tip(tracked);
    ClimbingFromTo(s.remote, |tracked| - 1, |s.remote| - 1);
    LeqSigns(Tip(tracked).snapshot, Tip(s.remote).snapshot);
  }
}
