/**
 The round as the source runs it: one blocking worker that mutates its vault, its
 clone and the remote, retrying a refused push. Every command leaves its event in
 a ghost trace, and the objects are at all times the state that trace leads to,
 so what `GitSync` proves of runs holds of them.
 */
module GitWorker {
  import opened Options
  import opened Records
  import opened GitDevice
  import opened GitSync

  class Branch {
    var chain: Chain

    constructor (chain: Chain)
      ensures this.chain == chain
    {
      this.chain := chain;
    }
  }

  /** How one attempt goes: which commands fail, the clock at the merge, what others push meanwhile. */
  datatype Luck = Luck(
    fetch: bool, reset: bool, merge: bool, now: Stamp, write: bool, commit: bool,
    elsewhere: Chain, push: PushReply)

  /** No command of the attempt fails; only its push may be lost. */
  predicate Sound(luck: Luck) { luck.reset && luck.merge && luck.write && luck.commit }

  function Pushes(trace: seq<Event>): nat {
    if trace == [] then 0
    else Pushes(trace[..|trace| - 1]) + if trace[|trace| - 1].Push? then 1 else 0
  }

  /** States and the events between them: each follows from the one before. */
  ghost predicate StepAt(states: seq<System>, trace: seq<Event>, i: nat)
    requires i < |trace| && |states| == |trace| + 1
  {
    states[i + 1] == Next(states[i], trace[i])
  }

  ghost predicate Recorded(states: seq<System>, trace: seq<Event>) {
    && |states| == |trace| + 1
    && forall i :: 0 <= i < |trace| ==> StepAt(states, trace, i)
  }

  lemma RecordSnoc(states: seq<System>, trace: seq<Event>, ev: Event)
    requires Recorded(states, trace)
    ensures Recorded(states + [Next(states[|trace|], ev)], trace + [ev])
    ensures Pushes(trace + [ev]) == Pushes(trace) + if ev.Push? then 1 else 0
  {
    var longer, all := states + [Next(states[|trace|], ev)], trace + [ev];
    forall i | 0 <= i < |all|
      ensures StepAt(longer, all, i)
    {
      if i < |trace| {
        assert StepAt(states, trace, i);
      }
    }
    assert all[..|trace|] == trace;
  }

  /** A recorded history is a run of the system. */
  lemma {:induction false} RecordedIsRun(states: seq<System>, trace: seq<Event>, n: nat)
    requires Recorded(states, trace) && n <= |trace|
    ensures Run(states[0], trace, n) == states[n]
  {
    if n > 0 {
      RecordedIsRun(states, trace, n - 1);
      assert StepAt(states, trace, n - 1);
    }
  }

  class Worker {
    const remote: Branch
    const name: nat
    var vault: Vault
    var head: Chain
    var snapshotFile: Option<Vault>
    var signatureFile: Option<Signature>
    var tracking: Option<Chain>
    ghost var phase: Phase
    ghost var outcome: Outcome
    ghost var states: seq<System>
    ghost var trace: seq<Event>

    ghost function Here(): Device
      reads this
    {
      Device(name, vault, head, snapshotFile, signatureFile, tracking, phase, outcome)
    }

    /** The live objects are where the trace leads. */
    ghost predicate Valid()
      reads this, remote
    {
      Recorded(states, trace) && states[|trace|] == System(remote.chain, [Here()])
    }

    /** A worker at rest over a freshly made clone. */
    constructor (remote: Branch, name: nat, vault: Vault)
      ensures Valid() && this.remote == remote && this.name == name && trace == [] && phase == Idle
      ensures states[0]
              == System(remote.chain,
                  [DoReclone(Device(name, vault, [], None, None, None, Idle, NotRun), remote.chain)])
    {
      this.remote, this.name := remote, name;
      this.vault := vault;
      if remote.chain == [] {
        head, snapshotFile, signatureFile, tracking := [], None, None, None;
      } else {
        head, tracking := remote.chain, Some(remote.chain);
        snapshotFile, signatureFile := Some(Tip(remote.chain).snapshot), Some(Tip(remote.chain).signature);
      }
      phase, outcome, trace := Idle, NotRun, [];
      states := [System(remote.chain,
          [DoReclone(Device(name, vault, [], None, None, None, Idle, NotRun), remote.chain)])];
    }

    method Begin()
      requires Valid() && phase.Idle?
      modifies this`phase, this`states, this`trace
      ensures Valid() && trace == old(trace) + [Event.Start(0)] && Pushes(trace) == Pushes(old(trace))
              && phase == Fetching(0)
      ensures states[0] == old(states[0])
    {
      RecordSnoc(states, trace, Event.Start(0));
      states := states + [Next(states[|trace|], Event.Start(0))];
      phase, trace := Fetching(0), trace + [Event.Start(0)];
    }

    /** Somebody else pushes. */
    method Interfere(commits: Chain)
      requires Valid()
      modifies remote, this`states, this`trace
      ensures Valid() && trace == old(trace) + [Elsewhere(commits)] && Pushes(trace) == Pushes(old(trace))
      ensures states[0] == old(states[0])
      ensures remote.chain == old(remote.chain) + commits
    {
      RecordSnoc(states, trace, Elsewhere(commits));
      states := states + [Next(states[|trace|], Elsewhere(commits))];
      remote.chain, trace := remote.chain + commits, trace + [Elsewhere(commits)];
    }

    method FetchOrigin(ok: bool)
      requires Valid() && phase.Fetching?
      modifies this`tracking, this`phase, this`states, this`trace
      ensures Valid() && trace == old(trace) + [Event.Fetch(0, ok)] && Pushes(trace) == Pushes(old(trace))
      ensures states[0] == old(states[0])
      ensures Here() == DoFetch(old(Here()), remote.chain, ok)
    {
      RecordSnoc(states, trace, Event.Fetch(0, ok));
      states := states + [Next(states[|trace|], Event.Fetch(0, ok))];
      if ok && remote.chain != [] {
        tracking := Some(remote.chain);
      }
      phase, trace := Resetting(phase.attempt), trace + [Event.Fetch(0, ok)];
    }

    method ResetHard(ok: bool) returns (success: bool)
      requires Valid() && phase.Resetting?
      modifies this`head, this`snapshotFile, this`signatureFile, this`phase, this`outcome, this`states, this`trace
      ensures Valid() && trace == old(trace) + [Event.Reset(0, ok)] && Pushes(trace) == Pushes(old(trace))
      ensures states[0] == old(states[0])
      ensures Here() == DoReset(old(Here()), ok) && success == phase.Merging?
    {
      RecordSnoc(states, trace, Event.Reset(0, ok));
      states := states + [Next(states[|trace|], Event.Reset(0, ok))];
      trace := trace + [Event.Reset(0, ok)];
      success := true;
      if tracking.Some? && tracking.value != [] {
        if !ok {
          phase, outcome := Idle, Failed;
          return false;
        }
        head := tracking.value;
        snapshotFile, signatureFile := Some(Tip(head).snapshot), Some(Tip(head).signature);
      }
      phase := Merging(phase.attempt);
    }

    method MergeSnapshot(ok: bool, now: Stamp) returns (success: bool)
      requires Valid() && phase.Merging?
      modifies this`vault, this`phase, this`outcome, this`states, this`trace
      ensures Valid() && trace == old(trace) + [Event.MergeFile(0, ok, now)] && Pushes(trace) == Pushes(old(trace))
      ensures states[0] == old(states[0])
      ensures Here() == DoMerge(old(Here()), ok, now) && success == phase.Comparing?
    {
      RecordSnoc(states, trace, Event.MergeFile(0, ok, now));
      states := states + [Next(states[|trace|], Event.MergeFile(0, ok, now))];
      trace := trace + [Event.MergeFile(0, ok, now)];
      success := true;
      if snapshotFile.Some? {
        if !ok {
          phase, outcome := Idle, Failed;
          return false;
        }
        vault := Merge(vault, snapshotFile.value, now);
      }
      phase := Comparing(phase.attempt);
    }

    method SignaturesMatch() returns (same: bool)
      requires Valid() && phase.Comparing?
      modifies this`phase, this`outcome, this`states, this`trace
      ensures Valid() && trace == old(trace) + [Event.Compare(0)] && Pushes(trace) == Pushes(old(trace))
      ensures states[0] == old(states[0])
      ensures Here() == DoCompare(old(Here()))
      ensures same == (signatureFile == Some(SignatureOf(vault))) && same == phase.Idle?
    {
      RecordSnoc(states, trace, Event.Compare(0));
      states := states + [Next(states[|trace|], Event.Compare(0))];
      trace := trace + [Event.Compare(0)];
      same := signatureFile == Some(SignatureOf(vault));
      if same {
        phase, outcome := Idle, Unchanged;
      } else {
        phase := Writing(phase.attempt, SignatureOf(vault));
      }
    }

    method WriteFiles(ok: bool) returns (success: bool)
      requires Valid() && phase.Writing? && phase.signature == SignatureOf(vault)
      modifies this`snapshotFile, this`signatureFile, this`phase, this`outcome, this`states, this`trace
      ensures Valid() && trace == old(trace) + [Event.Write(0, ok)] && Pushes(trace) == Pushes(old(trace))
      ensures states[0] == old(states[0])
      ensures Here() == DoWrite(old(Here()), ok) && success == phase.Committing?
    {
      RecordSnoc(states, trace, Event.Write(0, ok));
      states := states + [Next(states[|trace|], Event.Write(0, ok))];
      trace := trace + [Event.Write(0, ok)];
      snapshotFile := Some(vault);
      if !ok {
        phase, outcome := Idle, Failed;
        return false;
      }
      signatureFile := Some(SignatureOf(vault));
      phase := Committing(phase.attempt);
      success := true;
    }

    method CommitFiles(ok: bool) returns (success: bool)
      requires Valid() && phase.Committing? && snapshotFile.Some? && signatureFile.Some?
      modifies this`head, this`phase, this`outcome, this`states, this`trace
      ensures Valid() && trace == old(trace) + [Event.MakeCommit(0, ok)] && Pushes(trace) == Pushes(old(trace))
      ensures states[0] == old(states[0])
      ensures Here() == DoCommit(old(Here()), ok) && success == phase.Pushing?
    {
      RecordSnoc(states, trace, Event.MakeCommit(0, ok));
      states := states + [Next(states[|trace|], Event.MakeCommit(0, ok))];
      trace := trace + [Event.MakeCommit(0, ok)];
      success := ok;
      if ok {
        head := head + [Commit(snapshotFile.value, signatureFile.value, name)];
        phase := Pushing(phase.attempt);
      } else {
        phase, outcome := Idle, Failed;
      }
    }

    /** The remote takes the push only as a fast-forward, whatever the network would allow. */
    method PushHead(wish: PushReply) returns (accepted: bool)
      requires Valid() && phase.Pushing?
      modifies this`tracking, this`phase, this`outcome, this`states, this`trace, remote
      ensures Valid() && Pushes(trace) == Pushes(old(trace)) + 1
      ensures states[0] == old(states[0])
      ensures head == old(head) && vault == old(vault)
      ensures accepted ==> remote.chain == head && tracking == Some(head) && phase == Idle && outcome == Pushed
      ensures !accepted ==> Here() == DoRefused(old(Here()))
      ensures old(remote.chain) <= remote.chain
      ensures remote.chain == old(remote.chain) || remote.chain == head
    {
      var reply := if remote.chain <= head then wish else Refused;
      RecordSnoc(states, trace, Event.Push(0, reply));
      states := states + [Next(states[|trace|], Event.Push(0, reply))];
      trace := trace + [Event.Push(0, reply)];
      if !reply.Refused? {
        remote.chain := head;
      }
      accepted := reply.Accepted?;
      if accepted {
        tracking, phase, outcome := Some(head), Idle, Pushed;
      } else if phase.attempt + 1 < PUSH_ATTEMPTS {
        phase := Fetching(phase.attempt + 1);
      } else {
        phase, outcome := Idle, Failed;
      }
    }

    /** Fetch, reset, merge: the vault on top of whatever the remote was last seen to hold. */
    method Refresh(luck: Luck) returns (success: bool)
      requires Valid() && phase.Fetching?
      modifies this
      ensures Valid() && states[0] == old(states[0]) && Pushes(trace) == Pushes(old(trace))
      ensures success ==> phase == Comparing(old(phase.attempt))
      ensures Sound(luck) ==> success
      ensures !success ==> phase == Idle && outcome == Failed
    {
      FetchOrigin(luck.fetch);
      success := ResetHard(luck.reset);
      if success {
        success := MergeSnapshot(luck.merge, luck.now);
      }
    }

    /** Write the vault and its signature, commit them. */
    method Prepare(luck: Luck) returns (success: bool)
      requires Valid() && phase.Writing? && phase.signature == SignatureOf(vault)
      modifies this
      ensures Valid() && states[0] == old(states[0]) && Pushes(trace) == Pushes(old(trace))
      ensures success ==>
              phase == Pushing(old(phase.attempt)) && head != [] && Tip(head) == Commit(vault, SignatureOf(vault), name)
      ensures !success ==> phase == Idle && outcome == Failed
      ensures Sound(luck) ==> success
    {
      success := WriteFiles(luck.write);
      if success {
        success := CommitFiles(luck.commit);
      }
    }

    /** Others may push first; then this worker does. */
    method Publish(luck: Luck) returns (accepted: bool)
      requires Valid() && phase.Pushing?
      modifies this, remote
      ensures Valid() && states[0] == old(states[0]) && Pushes(trace) == Pushes(old(trace)) + 1
      ensures head == old(head) && vault == old(vault)
      ensures accepted ==> remote.chain == head && phase == Idle && outcome == Pushed
      ensures !accepted && old(phase.attempt) + 1 < PUSH_ATTEMPTS ==> phase == Fetching(old(phase.attempt) + 1)
      ensures !accepted && old(phase.attempt) + 1 >= PUSH_ATTEMPTS ==> phase == Idle && outcome == Failed
      ensures old(remote.chain) <= remote.chain
    {
      ghost var was := remote.chain;
      Interfere(luck.elsewhere);
      ghost var grown := remote.chain;
      accepted := PushHead(luck.push);
      assert was <= grown <= remote.chain;
    }

    /** One attempt; `over` when the round ends with it. */
    method Attempt(luck: Luck) returns (over: bool, result: Outcome)
      requires Valid() && phase.Fetching?
      modifies this, remote
      ensures Valid() && states[0] == old(states[0])
      ensures Pushes(trace) <= Pushes(old(trace)) + 1
      ensures !over ==> Pushes(trace) == Pushes(old(trace)) + 1
      ensures over && result.Failed? ==> !Sound(luck)
      ensures old(remote.chain) <= remote.chain
      ensures over ==> phase == Idle && result == outcome && result != NotRun
      ensures over && result.Pushed? ==>
              remote.chain != [] && Tip(remote.chain) == Commit(vault, SignatureOf(vault), name)
      ensures over && result.Unchanged? ==> signatureFile == Some(SignatureOf(vault))
      ensures !over && old(phase.attempt) + 1 < PUSH_ATTEMPTS ==> phase == Fetching(old(phase.attempt) + 1)
      ensures !over && old(phase.attempt) + 1 >= PUSH_ATTEMPTS ==> phase == Idle && outcome == Failed
    {
      var going := Refresh(luck);
      if !going {
        return true, Failed;
      }
      var same := SignaturesMatch();
      if same {
        return true, Unchanged;
      }
      going := Prepare(luck);
      if !going {
        return true, Failed;
      }
      over := Publish(luck);
      result := if over then Pushed else Failed;
    }

    /**
     The round. It ends in one of three ways, after at most three pushes; on
     `Pushed` the branch's newest commit is this vault under its own signature;
     on `Unchanged` the signature in the working copy is this vault's; and if no
     command fails, `Failed` takes three lost pushes.
     */
    method GitRound(luck: seq<Luck>) returns (result: Outcome)
      requires Valid() && phase.Idle? && |luck| == PUSH_ATTEMPTS
      modifies this, remote
      ensures Valid() && states[0] == old(states[0])
      ensures phase == Idle && result == outcome && result != NotRun
      ensures Pushes(trace) <= Pushes(old(trace)) + 3
      ensures result.Failed? && (forall i :: 0 <= i < |luck| ==> Sound(luck[i])) ==>
              Pushes(trace) == Pushes(old(trace)) + 3
      ensures old(remote.chain) <= remote.chain
      ensures result.Pushed? ==> remote.chain != [] && Tip(remote.chain) == Commit(vault, SignatureOf(vault), name)
      ensures result.Unchanged? ==> signatureFile == Some(SignatureOf(vault))
    {
      Begin();
      for attempt := 0 to PUSH_ATTEMPTS
        invariant Valid() && states[0] == old(states[0])
        invariant old(remote.chain) <= remote.chain
        invariant phase == if attempt < PUSH_ATTEMPTS then Fetching(attempt) else Idle
        invariant attempt == PUSH_ATTEMPTS ==> outcome == Failed
        invariant Pushes(trace) == Pushes(old(trace)) + attempt
      {
        var over, ended := Attempt(luck[attempt]);
        if over {
          return ended;
        }
      }
      result := Failed;
    }
  }
}
