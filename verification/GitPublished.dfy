/**
 What an Ok means: whose commits are on the remote branch, over whole runs from
 fresh clones of an empty remote, and which rounds report success without theirs.
 */
module GitPublished {
  import opened Options
  import opened Records
  import opened GitDevice
  import opened GitSync
  import opened GitRounds

  /** A commit of this device, carrying this signature, is on the branch. */
  ghost predicate Carries(chain: Chain, name: nat, signature: Signature) {
    exists i :: 0 <= i < |chain| && chain[i].author == name && chain[i].signature == signature
  }

  /** Event `m` is a push by device `d` that the remote takes, heard of or not. */
  predicate Taken(s: System, evs: seq<Event>, m: nat, d: nat)
    requires m < |evs|
  {
    evs[m].Push? && evs[m].d == d && Enabled(Run(s, evs, m), evs[m]) && !evs[m].reply.Refused?
  }

  /** Among the first `n` events, a push by `d` of its own commit with this signature was taken. */
  ghost predicate PushTaken(s: System, evs: seq<Event>, n: nat, d: nat, signature: Signature)
    requires n <= |evs| && d < |s.devices|
  {
    exists m :: 0 <= m < n && Taken(s, evs, m, d)
        && Carries(Run(s, evs, m).devices[d].head, s.devices[d].name, signature)
  }

  /** Every commit of device `d` on this chain was pushed by it. */
  ghost predicate AllPushed(s: System, evs: seq<Event>, n: nat, chain: Chain, d: nat)
    requires n <= |evs| && d < |s.devices|
  {
    forall i {:trigger chain[i]} :: 0 <= i < |chain| && chain[i].author == s.devices[d].name
      ==> PushTaken(s, evs, n, d, chain[i].signature)
  }

  /** Fresh clones, under different names, of a remote that is empty. */
  ghost predicate Blank(s: System) {
    && s.remote == []
    && (forall d :: 0 <= d < |s.devices| ==> s.devices[d] == FreshClone(s.devices[d].name, s.devices[d].vault))
    && (forall d, e :: 0 <= d < e < |s.devices| ==> s.devices[d].name != s.devices[e].name)
  }

  /** Commits pushed from elsewhere name none of these devices. */
  ghost predicate Foreign(s: System, ev: Event) {
    ev.Elsewhere? ==>
      forall i, d :: 0 <= i < |ev.commits| && 0 <= d < |s.devices| ==> ev.commits[i].author != s.devices[d].name
  }

  lemma {:induction false} NamesStay(s: System, evs: seq<Event>, n: nat, d: nat)
    requires n <= |evs| && d < |s.devices|
    ensures Run(s, evs, n).devices[d].name == s.devices[d].name
  {
    if n > 0 {
      NamesStay(s, evs, n - 1, d);
    }
  }

  lemma StillPushed(s: System, evs: seq<Event>, n: nat, chain: Chain, d: nat)
    requires n < |evs| && d < |s.devices| && AllPushed(s, evs, n, chain, d)
    ensures AllPushed(s, evs, n + 1, chain, d)
  {
    forall i | 0 <= i < |chain| && chain[i].author == s.devices[d].name
      ensures PushTaken(s, evs, n + 1, d, chain[i].signature)
    {
      assert PushTaken(s, evs, n, d, chain[i].signature);
    }
  }

  /**
   As far as device `d`'s commits go, the remote and the clone of `e` hold pushed ones only, but for `d`'s own
   branch.
   */
  ghost predicate TracesOf(s: System, evs: seq<Event>, n: nat, r: System, d: nat, e: nat)
    requires n <= |evs| && d < |s.devices| && e < |r.devices|
  {
    && AllPushed(s, evs, n, r.remote, d)
    && (r.devices[e].tracking.Some? ==> AllPushed(s, evs, n, r.devices[e].tracking.value, d))
    && (e != d ==> AllPushed(s, evs, n, r.devices[e].head, d))
  }

  lemma TracesPersist(s: System, evs: seq<Event>, n: nat, r: System, d: nat, e: nat)
    requires n < |evs| && d < |s.devices| && e < |r.devices| && TracesOf(s, evs, n, r, d, e)
    ensures TracesOf(s, evs, n + 1, r, d, e)
  {
    StillPushed(s, evs, n, r.remote, d);
    if r.devices[e].tracking.Some? {
      StillPushed(s, evs, n, r.devices[e].tracking.value, d);
    }
    if e != d {
      StillPushed(s, evs, n, r.devices[e].head, d);
    }
  }

  /** A push of its own branch makes every commit of `d` on it a pushed one. */
  lemma OwnPush(s: System, evs: seq<Event>, n: nat, d: nat)
    requires n < |evs| && d < |s.devices| && Taken(s, evs, n, d)
    ensures AllPushed(s, evs, n + 1, Run(s, evs, n).devices[d].head, d)
  {
    var head := Run(s, evs, n).devices[d].head;
    forall i | 0 <= i < |head| && head[i].author == s.devices[d].name
      ensures PushTaken(s, evs, n + 1, d, head[i].signature)
    {
      assert Carries(head, s.devices[d].name, head[i].signature);
    }
  }

  /** The branch after the event. */
  lemma RemoteTraces(s: System, evs: seq<Event>, n: nat, d: nat)
    requires n < |evs| && d < |s.devices| && Foreign(s, evs[n])
    requires forall e :: 0 <= e < |s.devices| ==> TracesOf(s, evs, n, Run(s, evs, n), d, e)
    ensures AllPushed(s, evs, n + 1, Run(s, evs, n + 1).remote, d)
  {
    var r, ev := Run(s, evs, n), evs[n];
    assert TracesOf(s, evs, n, r, d, d);
    StillPushed(s, evs, n, r.remote, d);
    if Enabled(r, ev) && ev.Push? && !ev.reply.Refused? {
      if ev.d == d {
        OwnPush(s, evs, n, d);
      } else {
        assert TracesOf(s, evs, n, r, d, ev.d);
        StillPushed(s, evs, n, r.devices[ev.d].head, d);
      }
    }
  }

  /** The clone of the device the event happens to. */
  lemma ActorTraces(s: System, evs: seq<Event>, n: nat, d: nat, e: nat)
    requires n < |evs| && d < |s.devices| && e < |s.devices|
    requires TracesOf(s, evs, n + 1, Run(s, evs, n), d, e) && AllPushed(s, evs, n + 1, Run(s, evs, n + 1).remote, d)
    requires Run(s, evs, n).devices[e].name == s.devices[e].name && (d != e ==> s.devices[d].name != s.devices[e].name)
    requires !evs[n].Elsewhere? && evs[n].d == e && Enabled(Run(s, evs, n), evs[n])
    ensures TracesOf(s, evs, n + 1, Run(s, evs, n + 1), d, e)
  {
    var v, w := Run(s, evs, n).devices[e], Run(s, evs, n + 1).devices[e];
    assert w == Act(v, Run(s, evs, n).remote, evs[n]);
    if evs[n].MakeCommit? && evs[n].ok && d != e {
      assert w.head[..|v.head|] == v.head;
    }
  }

  lemma NextTraces(s: System, evs: seq<Event>, n: nat, d: nat, e: nat)
    requires n < |evs| && d < |s.devices| && e < |s.devices| && Foreign(s, evs[n])
    requires d != e ==> s.devices[d].name != s.devices[e].name
    requires forall f :: 0 <= f < |s.devices| ==> TracesOf(s, evs, n, Run(s, evs, n), d, f)
    ensures TracesOf(s, evs, n + 1, Run(s, evs, n + 1), d, e)
  {
    RemoteTraces(s, evs, n, d);
    TracesPersist(s, evs, n, Run(s, evs, n), d, e);
    NamesStay(s, evs, n, e);
    if Enabled(Run(s, evs, n), evs[n]) && !evs[n].Elsewhere? && evs[n].d == e {
      ActorTraces(s, evs, n, d, e);
    }
  }

  lemma {:induction false} RunTraces(s: System, evs: seq<Event>, n: nat, d: nat)
    requires n <= |evs| && d < |s.devices| && Blank(s)
    requires forall m :: 0 <= m < n ==> Foreign(s, evs[m])
    ensures forall e :: 0 <= e < |s.devices| ==> TracesOf(s, evs, n, Run(s, evs, n), d, e)
  {
    if n > 0 {
      RunTraces(s, evs, n - 1, d);
      forall e | 0 <= e < |s.devices|
        ensures TracesOf(s, evs, n, Run(s, evs, n), d, e)
      {
        NextTraces(s, evs, n - 1, d, e);
      }
    }
  }

  lemma TakenStays(s: System, evs: seq<Event>, m: nat, n: nat, d: nat, signature: Signature)
    requires m < n <= |evs| && d < |s.devices| && Taken(s, evs, m, d)
    requires Carries(Run(s, evs, m).devices[d].head, s.devices[d].name, signature)
    ensures Carries(Run(s, evs, n).remote, s.devices[d].name, signature)
  {
    var head, remote := Run(s, evs, m).devices[d].head, Run(s, evs, n).remote;
    var i :| 0 <= i < |head| && head[i].author == s.devices[d].name && head[i].signature == signature;
    HistoryIsNeverRewritten(s, evs, m + 1, n);
    assert Run(s, evs, m + 1).remote == head && remote[i] == head[i];
  }

  /** Device `d`'s commit with this signature is on the branch if and only if a push of it was taken. */
  lemma OnTheBranchExactlyIfPushed(s: System, evs: seq<Event>, n: nat, d: nat, signature: Signature)
    requires n <= |evs| && d < |s.devices| && Blank(s)
    requires forall m :: 0 <= m < n ==> Foreign(s, evs[m])
    ensures Carries(Run(s, evs, n).remote, s.devices[d].name, signature) <==> PushTaken(s, evs, n, d, signature)
  {
    RunTraces(s, evs, n, d);
    assert TracesOf(s, evs, n, Run(s, evs, n), d, d);
    if PushTaken(s, evs, n, d, signature) {
      var m :| 0 <= m < n && Taken(s, evs, m, d)
          && Carries(Run(s, evs, m).devices[d].head, s.devices[d].name, signature);
      TakenStays(s, evs, m, n, d, signature);
    }
  }

  /**
   Every Ok of a device that tracks no branch: when its round ends on equal
   signatures it sends nothing, and its vault, as committed by it, is on the
   branch if and only if a push of it was taken at some time before.
   */
  lemma UntrackedOkExactly(s: System, evs: seq<Event>, n: nat, d: nat)
    requires n <= |evs| && d < |s.devices| && Blank(s)
    requires forall m :: 0 <= m < n ==> Foreign(s, evs[m])
    requires Run(s, evs, n).devices[d].phase.Comparing? && Run(s, evs, n).devices[d].tracking.None?
    requires Run(s, evs, n).devices[d].signatureFile == Some(SignatureOf(Run(s, evs, n).devices[d].vault))
    ensures var r := Run(s, evs, n);
            var ended := Next(r, Compare(d));
            && ended.devices[d].phase == Idle && ended.devices[d].outcome == Unchanged
            && ended.remote == r.remote && ended.devices[d].vault == r.devices[d].vault
            && (Carries(ended.remote, s.devices[d].name, SignatureOf(r.devices[d].vault)) <==>
                PushTaken(s, evs, n, d, SignatureOf(r.devices[d].vault)))
  {
    OnTheBranchExactlyIfPushed(s, evs, n, d, SignatureOf(Run(s, evs, n).devices[d].vault));
  }

  // ----- Rounds that say Ok and push nothing -----

  /** Any later round of an untracked device whose files are its vault's: Ok, and the remote stays as it was. */
  lemma StrandedRoundsSayOk(s: System, d: nat, fetched: bool, now: Stamp)
    requires d < |s.devices| && s.devices[d].phase.Idle? && s.devices[d].tracking.None? && Wrote(s.devices[d])
    requires fetched ==> s.remote == []
    ensures Run(Next(s, Start(d)), Retry(d, fetched, now), 4) == Unmoved(s, d)
  {
    UntrackedRetrySendsNothing(Next(s, Start(d)), d, 0, fetched, now);
  }

  /** Files written and then a commit that failed: the round after says Ok, with no commit anywhere. */
  lemma FailedCommitThenOk(name: nat, vault: Vault, now: Stamp, fetched: bool, later: Stamp)
    ensures var written := FreshClone(name, vault).(phase := Committing(0), snapshotFile := Some(vault),
                                                    signatureFile := Some(SignatureOf(vault)));
            var failed := Next(System([], [written]), MakeCommit(0, false));
            var r := Run(Next(failed, Start(0)), Retry(0, fetched, later), 4);
            && failed.devices[0].outcome == Failed
            && r.remote == [] && r.devices[0].head == [] && r.devices[0].outcome == Unchanged
                 && r.devices[0].phase == Idle
  {
    var written := FreshClone(name, vault).(phase := Committing(0), snapshotFile := Some(vault),
                                            signatureFile := Some(SignatureOf(vault)));
    StrandedRoundsSayOk(Next(System([], [written]), MakeCommit(0, false)), 0, fetched, later);
  }
}
