/**
 Whole Git rounds put together from their commands: an uncontended round is the
 abstract round of `SyncRounds`; the first-push hole; what a clock that lags does
 to the branch; and the retry loop itself.
 */
module GitRounds {
  import opened Options
  import opened Records
  import opened GitDevice
  import opened GitSync
  import SyncRounds

  /** The commands of one attempt, in program order, with every one of them succeeding. */
  function Attempt(d: nat, now: Stamp, reply: PushReply): seq<Event> {
    [Fetch(d, true), Reset(d, true), MergeFile(d, true, now), Compare(d), Write(d, true), MakeCommit(d, true),
        Push(d, reply)]
  }

  lemma {:induction false} RunConcat(s: System, a: seq<Event>, b: seq<Event>, n: nat)
    requires n <= |b|
    ensures Run(s, a + b, |a| + n) == Run(Run(s, a, |a|), b, n)
  {
    if n > 0 {
      RunConcat(s, a, b, n - 1);
      assert (a + b)[|a| + n - 1] == b[n - 1];
    } else {
      RunPrefix(s, a, b, |a|);
    }
  }

  lemma {:induction false} RunPrefix(s: System, a: seq<Event>, b: seq<Event>, n: nat)
    requires n <= |a|
    ensures Run(s, a + b, n) == Run(s, a, n)
  {
    if n > 0 {
      RunPrefix(s, a, b, n - 1);
    }
  }

  /** Where an attempt stands after fetch, reset and merge on a remote branch that exists. */
  function Refreshed(v: Device, remote: Chain, k: nat, now: Stamp): Device
    requires remote != []
  {
    v.(tracking := Some(remote), head := remote,
       snapshotFile := Some(Tip(remote).snapshot), signatureFile := Some(Tip(remote).signature),
       vault := Merge(v.vault, Tip(remote).snapshot, now), phase := Comparing(k))
  }

  function With(s: System, d: nat, v: Device): System
    requires d < |s.devices|
  {
    s.(devices := s.devices[d := v])
  }

  /** One more command of device `d` that leaves the remote alone. */
  lemma OneMore(s: System, evs: seq<Event>, n: nat, d: nat, v: Device)
    requires n < |evs| && d < |s.devices| && Run(s, evs, n) == With(s, d, v)
    requires !evs[n].Elsewhere? && evs[n].d == d && !evs[n].Push? && Ready(v, s.remote, evs[n])
    ensures Run(s, evs, n + 1) == With(s, d, Act(v, s.remote, evs[n]))
  {
    assert s.devices[d := v][d := Act(v, s.remote, evs[n])] == s.devices[d := Act(v, s.remote, evs[n])];
  }

  lemma AttemptRefreshes(s: System, d: nat, k: nat, now: Stamp, reply: PushReply)
    requires d < |s.devices| && s.devices[d].phase == Fetching(k) && s.remote != []
    ensures Run(s, Attempt(d, now, reply), 3)
            == System(s.remote, s.devices[d := Refreshed(s.devices[d], s.remote, k, now)])
  {
    var v, evs := s.devices[d], Attempt(d, now, reply);
    assert s.devices[d := v] == s.devices;
    OneMore(s, evs, 0, d, v);
    OneMore(s, evs, 1, d, DoFetch(v, s.remote, true));
    OneMore(s, evs, 2, d, DoReset(DoFetch(v, s.remote, true), true));
  }

  /** What is left of an attempt once the signatures differ, up to the push. */
  lemma AttemptCommits(s: System, d: nat, k: nat, now: Stamp)
    requires d < |s.devices| && s.devices[d].phase == Comparing(k)
    requires s.devices[d].signatureFile != Some(SignatureOf(s.devices[d].vault))
    ensures var v := s.devices[d];
            var sig := SignatureOf(v.vault);
            var pushing := v.(snapshotFile := Some(v.vault), signatureFile := Some(sig),
                              head := v.head + [Commit(v.vault, sig, v.name)], phase := Pushing(k));
            Run(s, Attempt(d, now, Accepted)[3..], 3) == With(s, d, pushing)
  {
    var v, evs := s.devices[d], Attempt(d, now, Accepted)[3..];
    var sig := SignatureOf(v.vault);
    var writing := v.(phase := Writing(k, sig));
    assert s.devices[d := v] == s.devices;
    OneMore(s, evs, 0, d, v);
    OneMore(s, evs, 1, d, writing);
    OneMore(s, evs, 2, d, DoWrite(writing, true));
  }

  /** The last four commands once the signatures differ. */
  lemma AttemptPublishes(s: System, d: nat, k: nat, now: Stamp)
    requires d < |s.devices| && s.devices[d].phase == Comparing(k)
    requires s.devices[d].signatureFile != Some(SignatureOf(s.devices[d].vault))
    requires s.devices[d].head == s.remote
    ensures var v := s.devices[d];
            var r := Run(s, Attempt(d, now, Accepted)[3..], 4);
            && r.remote == s.remote + [Commit(v.vault, SignatureOf(v.vault), v.name)]
            && |r.devices| == |s.devices|
            && r.devices[d].vault == v.vault && r.devices[d].phase == Idle && r.devices[d].outcome == Pushed
            && forall e :: 0 <= e < |s.devices| && e != d ==> r.devices[e] == s.devices[e]
  {
    AttemptCommits(s, d, k, now);
    var evs := Attempt(d, now, Accepted)[3..];
    assert Run(s, evs, 4) == Next(Run(s, evs, 3), Push(d, Accepted));
  }

  /** The remaining commands once the signatures match: the round is over and they do nothing. */
  lemma AttemptStops(s: System, d: nat, k: nat, now: Stamp)
    requires d < |s.devices| && s.devices[d].phase == Comparing(k)
    requires s.devices[d].signatureFile == Some(SignatureOf(s.devices[d].vault))
    ensures Run(s, Attempt(d, now, Accepted)[3..], 4)
         == System(s.remote, s.devices[d := s.devices[d].(phase := Idle, outcome := Unchanged)])
  {
    var evs := Attempt(d, now, Accepted)[3..];
    var done := System(s.remote, s.devices[d := s.devices[d].(phase := Idle, outcome := Unchanged)]);
    assert Run(s, evs, 0) == s;
    assert Run(s, evs, 1) == done;
    assert Run(s, evs, 2) == done;
    assert Run(s, evs, 3) == done;
  }

  /** One uncontended round from rest. */
  function RoundEvents(d: nat, now: Stamp): seq<Event> { [Start(d)] + Attempt(d, now, Accepted) }

  /** The published snapshot and the vaults, forgetting clones and histories. */
  function WorldOf(s: System): SyncRounds.World
    requires s.remote != []
  {
    SyncRounds.World(seq(|s.devices|, d requires 0 <= d < |s.devices| => s.devices[d].vault), Tip(s.remote).snapshot)
  }

  lemma RoundSplits(s: System, d: nat, now: Stamp)
    requires d < |s.devices| && s.devices[d].phase.Idle? && s.remote != []
    ensures |RoundEvents(d, now)| == 8
    ensures var mid := System(s.remote, s.devices[d := Refreshed(s.devices[d], s.remote, 0, now)]);
            Run(s, RoundEvents(d, now), 8) == Run(mid, Attempt(d, now, Accepted)[3..], 4)
  {
    var evs := Attempt(d, now, Accepted);
    var begun := System(s.remote, s.devices[d := s.devices[d].(phase := Fetching(0))]);
    RunConcat(s, [Start(d)], evs, 7);
    assert Run(s, [Start(d)], 0) == s;
    assert Run(s, [Start(d)], 1) == begun;
    AttemptRefreshes(begun, d, 0, now, Accepted);
    assert evs == evs[..3] + evs[3..];
    RunConcat(begun, evs[..3], evs[3..], 4);
    RunPrefix(begun, evs[..3], evs[3..], 3);
    assert s.devices[d := s.devices[d].(phase := Fetching(0))][d := Refreshed(s.devices[d], s.remote, 0, now)]
        == s.devices[d := Refreshed(s.devices[d], s.remote, 0, now)];
  }

  /**
   Command by command or all at once: an uncontended round on a branch whose tip
   is signed as it is written leaves the vaults and the published snapshot of the
   abstract round, and adds a commit exactly when that round does.
   */
  lemma CommandsMakeTheRound(s: System, d: nat, now: Stamp)
    requires d < |s.devices| && s.devices[d].phase.Idle? && s.remote != []
    requires Tip(s.remote).signature == SignatureOf(Tip(s.remote).snapshot)
    ensures |RoundEvents(d, now)| == 8
    ensures var r := Run(s, RoundEvents(d, now), 8);
            && r.remote != []
            && WorldOf(r) == SyncRounds.Round(WorldOf(s), d, now)
            && Tip(r.remote).signature == SignatureOf(Tip(r.remote).snapshot)
            && |r.remote| == |s.remote| + (if SyncRounds.Commits(WorldOf(s), d, now) then 1 else 0)
            && |r.devices| == |s.devices| && r.devices[d].phase.Idle?
            && forall e :: 0 <= e < |s.devices| && e != d ==> r.devices[e] == s.devices[e]
  {
    RoundSplits(s, d, now);
    var v := Refreshed(s.devices[d], s.remote, 0, now);
    var mid := System(s.remote, s.devices[d := v]);
    assert v.vault == SyncRounds.Merged(WorldOf(s), d, now);
    if v.signatureFile == Some(SignatureOf(v.vault)) {
      AttemptStops(mid, d, 0, now);
    } else {
      AttemptPublishes(mid, d, 0, now);
    }
    var r := Run(s, RoundEvents(d, now), 8);
    assert WorldOf(r).vaults == WorldOf(s).vaults[d := v.vault];
  }

  // ----- The first push -----

  /** A device that has just cloned an empty remote. */
  function FreshClone(name: nat, vault: Vault): Device {
    Device(name, vault, [], None, None, None, Idle, NotRun)
  }

  /** The same device after its first attempt's push did not go through. */
  function Stranded(name: nat, vault: Vault): Device {
    Device(name, vault, [Commit(vault, SignatureOf(vault), name)], Some(vault), Some(SignatureOf(vault)), None,
        Fetching(1), NotRun)
  }

  /** On an empty remote, an attempt that finds no files and no tracking ref. */
  lemma FirstAttemptFindsNothing(name: nat, vault: Vault, evs: seq<Event>, now: Stamp)
    requires |evs| == 8 && evs[..5] == [Start(0), Fetch(0, true), Reset(0, true), MergeFile(0, true, now), Compare(0)]
    ensures Run(System([], [FreshClone(name, vault)]), evs, 5)
         == System([], [FreshClone(name, vault).(phase := Writing(0, SignatureOf(vault)))])
  {
    var s := System([], [FreshClone(name, vault)]);
    assert evs[0] == evs[..5][0] && evs[1] == evs[..5][1] && evs[2] == evs[..5][2]
        && evs[3] == evs[..5][3] && evs[4] == evs[..5][4];
    assert Run(s, evs, 1) == System([], [FreshClone(name, vault).(phase := Fetching(0))]);
    assert Run(s, evs, 2) == System([], [FreshClone(name, vault).(phase := Resetting(0))]);
    assert Run(s, evs, 3) == System([], [FreshClone(name, vault).(phase := Merging(0))]);
    assert Run(s, evs, 4) == System([], [FreshClone(name, vault).(phase := Comparing(0))]);
  }

  /** The first attempt up to its push: a commit over nothing, no branch tracked. */
  lemma FirstAttemptCommits(name: nat, vault: Vault, now: Stamp, reply: PushReply)
    ensures Run(System([], [FreshClone(name, vault)]), [Start(0)] + Attempt(0, now, reply), 7)
         == System([], [Stranded(name, vault).(phase := Pushing(0))])
  {
    var s := System([], [FreshClone(name, vault)]);
    var evs := [Start(0)] + Attempt(0, now, reply);
    var sig := SignatureOf(vault);
    FirstAttemptFindsNothing(name, vault, evs, now);
    assert evs[5] == Write(0, true) && evs[6] == MakeCommit(0, true);
    var written := Device(name, vault, [], Some(vault), Some(sig), None, Committing(0), NotRun);
    assert Run(s, evs, 6) == System([], [written]);
    assert [] + [Commit(vault, sig, name)] == [Commit(vault, sig, name)];
    assert DoCommit(written, true) == Stranded(name, vault).(phase := Pushing(0));
  }

  /** The retry, up to the comparison that may end it. */
  function Retry(d: nat, fetched: bool, now: Stamp): seq<Event> {
    [Fetch(d, fetched), Reset(d, true), MergeFile(d, true, now), Compare(d)]
  }

  /** The device's files hold its vault and that vault's signature. */
  predicate Wrote(v: Device) {
    v.snapshotFile == Some(v.vault) && v.signatureFile == Some(SignatureOf(v.vault))
  }

  function Unmoved(s: System, d: nat): System
    requires d < |s.devices|
  {
    With(s, d, s.devices[d].(phase := Idle, outcome := Unchanged))
  }

  lemma RetryRuns(s: System, d: nat, k: nat, fetched: bool, now: Stamp)
    requires d < |s.devices| && s.devices[d].phase == Fetching(k)
    ensures var v := DoReset(DoFetch(s.devices[d], s.remote, fetched), true);
            v.phase.Merging? && Run(s, Retry(d, fetched, now), 4) == With(s, d, DoCompare(DoMerge(v, true, now)))
  {
    var evs := Retry(d, fetched, now);
    var fetching := s.devices[d];
    var resetting := DoFetch(fetching, s.remote, fetched);
    var merging := DoReset(resetting, true);
    assert s.devices[d := fetching] == s.devices;
    OneMore(s, evs, 0, d, fetching);
    OneMore(s, evs, 1, d, resetting);
    OneMore(s, evs, 2, d, merging);
    OneMore(s, evs, 3, d, DoMerge(merging, true, now));
  }

  /** With no branch found, the retry reads back its own signature and says Ok; the remote stays as it was. */
  lemma UntrackedRetrySendsNothing(s: System, d: nat, k: nat, fetched: bool, now: Stamp)
    requires d < |s.devices| && s.devices[d].phase == Fetching(k) && s.devices[d].tracking.None? && Wrote(s.devices[d])
    requires fetched ==> s.remote == []
    ensures Run(s, Retry(d, fetched, now), 4) == Unmoved(s, d)
  {
    RetryRuns(s, d, k, fetched, now);
    assert Merge(s.devices[d].vault, s.devices[d].vault, now) == s.devices[d].vault;
  }

  /** After an answer that never arrived, a fetch that works finds this device's own commit. */
  lemma HeardAfterAllSendsNothing(s: System, d: nat, k: nat, now: Stamp)
    requires d < |s.devices| && s.devices[d].phase == Fetching(k) && Wrote(s.devices[d])
    requires s.remote != [] && s.remote == s.devices[d].head
    requires Tip(s.remote) == Commit(s.devices[d].vault, SignatureOf(s.devices[d].vault), s.devices[d].name)
    ensures Run(s, Retry(d, true, now), 4) == Unmoved(With(s, d, s.devices[d].(tracking := Some(s.remote))), d)
  {
    RetryRuns(s, d, k, true, now);
    assert Merge(s.devices[d].vault, s.devices[d].vault, now) == s.devices[d].vault;
  }

  /** An event of a device at rest that needs it elsewhere does nothing. */
  lemma {:induction false} RestingRetry(s: System, d: nat, fetched: bool, now: Stamp, n: nat)
    requires n <= 4 && d < |s.devices| && s.devices[d].phase.Idle?
    ensures Run(s, Retry(d, fetched, now), n) == s
  {
    if n > 0 {
      RestingRetry(s, d, fetched, now, n - 1);
    }
  }

  /**
   What an Ok means to any device that pushes without tracking a branch, whatever
   the push is answered and however the retry's fetch goes, unless a refused push
   is followed by a fetch that finds a branch (the device tracks it from then on):
   the round ends Ok, and its commit is on the remote if and only if the push was
   not refused.
   */
  lemma UntrackedOkIsPublishedExactly(s: System, d: nat, k: nat, reply: PushReply, fetched: bool, now: Stamp)
    requires d < |s.devices| && s.devices[d].phase == Pushing(k) && k + 1 < PUSH_ATTEMPTS
    requires s.devices[d].tracking.None? && Wrote(s.devices[d]) && s.devices[d].head != []
    requires Tip(s.devices[d].head) == Commit(s.devices[d].vault, SignatureOf(s.devices[d].vault), s.devices[d].name)
    requires !(s.devices[d].head <= s.remote) && (!reply.Refused? ==> s.remote <= s.devices[d].head)
    requires reply.Refused? && fetched ==> s.remote == []
    ensures var r := Run(Next(s, Push(d, reply)), Retry(d, fetched, now), 4);
            && r.devices[d].phase == Idle && r.devices[d].outcome == (if reply.Accepted? then Pushed else Unchanged)
            && r.devices[d].vault == s.devices[d].vault
            && (s.devices[d].head <= r.remote <==> !reply.Refused?)
            && r.remote == if reply.Refused? then s.remote else s.devices[d].head
  {
    var p := Next(s, Push(d, reply));
    if reply.Accepted? {
      RestingRetry(p, d, fetched, now, 4);
    } else if reply.AcceptedUnheard? && fetched {
      HeardAfterAllSendsNothing(p, d, k + 1, now);
    } else {
      UntrackedRetrySendsNothing(p, d, k + 1, fetched, now);
    }
  }

  /**
   The first sync of a vault to an empty remote, whatever the first push is
   answered and however the retry's fetch goes: it reports Ok, and the vault is
   published if and only if that push was not refused.
   */
  lemma FirstOkIsPublishedExactly(name: nat, vault: Vault, now: Stamp, reply: PushReply, fetched: bool, later: Stamp)
    ensures |[Start(0)] + Attempt(0, now, reply)| == 8
    ensures var r := Run(Run(System([], [FreshClone(name, vault)]), [Start(0)] + Attempt(0, now, reply), 8),
            Retry(0, fetched, later), 4);
            && r.devices[0].phase == Idle && (r.devices[0].outcome == Unchanged || r.devices[0].outcome == Pushed)
            && r.devices[0].vault == vault
            && r.remote == (if reply.Refused? then [] else [Commit(vault, SignatureOf(vault), name)])
  {
    var s := System([], [Stranded(name, vault).(phase := Pushing(0))]);
    FirstAttemptCommits(name, vault, now, reply);
    assert ([Start(0)] + Attempt(0, now, reply))[7] == Push(0, reply);
    UntrackedOkIsPublishedExactly(s, 0, 0, reply, fetched, later);
  }

  // ----- A clock that lags -----

  /**
   A device whose clock is behind a deletion it applies publishes a snapshot
   that is not at or above the one it was built on: the deletion is back-dated
   for everyone.
   */
  lemma LaggingClockLowersTheBranch(s: System, d: nat, now: Stamp, id: Id)
    requires d < |s.devices| && s.devices[d].phase.Idle? && s.remote != []
    requires Tip(s.remote).signature == SignatureOf(Tip(s.remote).snapshot)
    requires Buries(s.devices[d].vault, Tip(s.remote).snapshot, id)
    requires now / NANOS_PER_MILLI < Tip(s.remote).snapshot[id].stamp / NANOS_PER_MILLI
    ensures |RoundEvents(d, now)| == 8
    ensures var r := Run(s, RoundEvents(d, now), 8);
            && |r.remote| == |s.remote| + 1
            && id in Tip(r.remote).snapshot && Tip(r.remote).snapshot[id].stamp == now
            && !Leq(Tip(s.remote).snapshot, Tip(r.remote).snapshot)
  {
    CommandsMakeTheRound(s, d, now);
    var w := WorldOf(s);
    var m := SyncRounds.Merged(w, d, now);
    assert m[id] == Tombstone(now);
    assert SignatureOf(m)[id] != SignatureOf(w.remote)[id];
    assert SyncRounds.Commits(w, d, now);
    assert !EntryLeq(Tip(s.remote).snapshot[id], m[id]);
  }

  /**
   So an uncontended round publishes a snapshot at or above the one before exactly
   when the device's clock is not behind a deletion it applies, or it publishes
   nothing.
   */
  lemma RoundClimbsExactly(s: System, d: nat, now: Stamp)
    requires d < |s.devices| && s.devices[d].phase.Idle? && s.remote != []
    requires Tip(s.remote).signature == SignatureOf(Tip(s.remote).snapshot)
    requires Agree(s.devices[d].vault, Tip(s.remote).snapshot)
    ensures |RoundEvents(d, now)| == 8
    ensures var r := Run(s, RoundEvents(d, now), 8);
            r.remote != [] &&
            (Leq(Tip(s.remote).snapshot, Tip(r.remote).snapshot) <==>
             ClockAhead(s.devices[d].vault, Tip(s.remote).snapshot, now) || |r.remote| == |s.remote|)
  {
    CommandsMakeTheRound(s, d, now);
    MergeDominates(s.devices[d].vault, Tip(s.remote).snapshot, now);
  }
}
