/**
 One device of the Git transport: its vault, its local clone, its place in the
 round, and what each command of the round does to them and to the remote
 branch. Every command may fail on its own; a push is taken only when it is a
 fast-forward.
 */
module GitDevice {
  import opened Options
  import opened Records

  /** A commit and the device its message names. */
  datatype Commit = Commit(snapshot: Vault, signature: Signature, author: nat)

  /** A branch: its whole history, oldest commit first. */
  type Chain = seq<Commit>

  const PUSH_ATTEMPTS: nat := 3

  datatype Phase =
    | Idle
    | Fetching(attempt: nat)
    | Resetting(attempt: nat)
    | Merging(attempt: nat)
    | Comparing(attempt: nat)
    | Writing(attempt: nat, signature: Signature)
    | Committing(attempt: nat)
    | Pushing(attempt: nat)

  datatype Outcome = NotRun | Unchanged | Pushed | Failed

  /**
   One device: its name, its vault, the clone's branch, the two files in the working copy,
   the remote-tracking ref, and where its round stands.
   */
  datatype Device = Device(
    name: nat,
    vault: Vault,
    head: Chain,
    snapshotFile: Option<Vault>,
    signatureFile: Option<Signature>,
    tracking: Option<Chain>,
    phase: Phase,
    outcome: Outcome)

  datatype PushReply =
    | Accepted
    | AcceptedUnheard  // the remote took it, the answer never arrived
    | Refused

  datatype Event =
    | Edit(d: nat, id: Id, entry: Entry)
    | Elsewhere(commits: Chain)
    | Reclone(d: nat)
    | Start(d: nat)
    | Fetch(d: nat, ok: bool)
    | Reset(d: nat, ok: bool)
    | MergeFile(d: nat, ok: bool, now: Stamp)
    | Compare(d: nat)
    | Write(d: nat, complete: bool)
    | MakeCommit(d: nat, ok: bool)
    | Push(d: nat, reply: PushReply)

  function Tip(chain: Chain): Commit
    requires chain != []
  {
    chain[|chain| - 1]
  }

  // ----- One device's steps -----

  function Failing(v: Device): Device { v.(phase := Idle, outcome := Failed) }

  /** `ensure_clone` starting over: the clone is a cache and may be rebuilt between rounds. */
  function DoReclone(v: Device, remote: Chain): Device {
    if remote == [] then v.(head := [], snapshotFile := None, signatureFile := None, tracking := None)
    else v.(head := remote, snapshotFile := Some(Tip(remote).snapshot),
            signatureFile := Some(Tip(remote).signature), tracking := Some(remote))
  }

  /** A failed fetch is ignored and leaves the tracking ref where it was. */
  function DoFetch(v: Device, remote: Chain, ok: bool): Device
    requires v.phase.Fetching?
  {
    v.(tracking := if ok && remote != [] then Some(remote) else v.tracking, phase := Resetting(v.phase.attempt))
  }

  /** `reset --hard` to the tracking ref, when there is one. */
  function DoReset(v: Device, ok: bool): Device
    requires v.phase.Resetting?
  {
    if v.tracking.None? || v.tracking.value == [] then v.(phase := Merging(v.phase.attempt))
    else if !ok then Failing(v)
    else v.(head := v.tracking.value, snapshotFile := Some(Tip(v.tracking.value).snapshot),
            signatureFile := Some(Tip(v.tracking.value).signature), phase := Merging(v.phase.attempt))
  }

  function DoMerge(v: Device, ok: bool, now: Stamp): Device
    requires v.phase.Merging?
  {
    if v.snapshotFile.None? then v.(phase := Comparing(v.phase.attempt))
    else if !ok then Failing(v)
    else v.(vault := Merge(v.vault, v.snapshotFile.value, now), phase := Comparing(v.phase.attempt))
  }

  function DoCompare(v: Device): Device
    requires v.phase.Comparing?
  {
    if v.signatureFile == Some(SignatureOf(v.vault)) then v.(phase := Idle, outcome := Unchanged)
    else v.(phase := Writing(v.phase.attempt, SignatureOf(v.vault)))
  }

  /** The snapshot is rebuilt from the vault as it is now; the signature is the one already compared. */
  function DoWrite(v: Device, complete: bool): Device
    requires v.phase.Writing?
  {
    if !complete then Failing(v.(snapshotFile := Some(v.vault)))
    else v.(snapshotFile := Some(v.vault), signatureFile := Some(v.phase.signature),
         phase := Committing(v.phase.attempt))
  }

  function DoCommit(v: Device, ok: bool): Device
    requires v.phase.Committing? && v.snapshotFile.Some? && v.signatureFile.Some?
  {
    if !ok then Failing(v)
    else v.(head := v.head + [Commit(v.snapshotFile.value, v.signatureFile.value, v.name)],
         phase := Pushing(v.phase.attempt))
  }

  function DoRefused(v: Device): Device
    requires v.phase.Pushing?
  {
    if v.phase.attempt + 1 < PUSH_ATTEMPTS then v.(phase := Fetching(v.phase.attempt + 1)) else Failing(v)
  }

  /** A rebuilt clone is the remote's, and keeps nothing of the one before. */
  lemma RecloneForgets(v: Device, w: Device, remote: Chain)
    requires v.name == w.name && v.vault == w.vault && v.phase == w.phase && v.outcome == w.outcome
    ensures DoReclone(v, remote) == DoReclone(w, remote)
    ensures DoReclone(v, remote).head == remote && (DoReclone(v, remote).tracking.Some? <==> remote != [])
  {}

  // ----- The step function -----

  /** Whether the device is where this event can happen to it. */
  predicate Ready(v: Device, remote: Chain, ev: Event) {
    match ev
    case Elsewhere(_) => false
    case Edit(_, _, _) => true
    case Reclone(_) => v.phase.Idle?
    case Start(_) => v.phase.Idle?
    case Fetch(_, _) => v.phase.Fetching?
    case Reset(_, _) => v.phase.Resetting?
    case MergeFile(_, _, _) => v.phase.Merging?
    case Compare(_) => v.phase.Comparing?
    case Write(_, _) => v.phase.Writing?
    case MakeCommit(_, _) => v.phase.Committing? && v.snapshotFile.Some? && v.signatureFile.Some?
    case Push(_, reply) => v.phase.Pushing? && (!reply.Refused? ==> remote <= v.head)
  }

  /** The device after the event. */
  function Act(v: Device, remote: Chain, ev: Event): Device
    requires Ready(v, remote, ev)
  {
    match ev
    case Edit(_, id, entry) => v.(vault := v.vault[id := entry])
    case Reclone(_) => DoReclone(v, remote)
    case Start(_) => v.(phase := Fetching(0))
    case Fetch(_, ok) => DoFetch(v, remote, ok)
    case Reset(_, ok) => DoReset(v, ok)
    case MergeFile(_, ok, now) => DoMerge(v, ok, now)
    case Compare(_) => DoCompare(v)
    case Write(_, complete) => DoWrite(v, complete)
    case MakeCommit(_, ok) => DoCommit(v, ok)
    case Push(_, Accepted) => v.(tracking := Some(v.head), phase := Idle, outcome := Pushed)
    case Push(_, _) => DoRefused(v)
  }

  /** The remote branch after the event: only a push that is taken moves it. */
  function ActRemote(v: Device, remote: Chain, ev: Event): Chain
    requires Ready(v, remote, ev)
  {
    if ev.Push? && !ev.reply.Refused? then v.head else remote
  }

  // ----- The invariant -----

  /** Each commit's snapshot is at or above the one before it. */
  ghost predicate Climbing(chain: Chain) {
    forall i :: 0 < i < |chain| ==> Leq(chain[i - 1].snapshot, chain[i].snapshot)
  }

  /** No commit's signature claims more than its snapshot holds. */
  ghost predicate Honest(chain: Chain) {
    forall i :: 0 <= i < |chain| ==> SignatureLeq(chain[i].signature, SignatureOf(chain[i].snapshot))
  }

  ghost predicate TracksRemote(v: Device, remote: Chain) {
    v.tracking.Some? ==> v.tracking.value != [] && v.tracking.value <= remote
  }

  /** The working copy's snapshot is at or above the branch tip it stands on. */
  ghost predicate FileAboveHead(v: Device) {
    v.head != [] ==> v.snapshotFile.Some? && Leq(Tip(v.head).snapshot, v.snapshotFile.value)
  }

  /** From the merge to the write, the vault is at or above the branch tip. */
  ghost predicate VaultAboveHead(v: Device) {
    (v.phase.Comparing? || v.phase.Writing?) && v.head != [] ==> Leq(Tip(v.head).snapshot, v.vault)
  }

  /** Between reset and compare, the files are the tracked tip's. */
  ghost predicate FilesAreTracked(v: Device) {
    (v.phase.Merging? || v.phase.Comparing?) && v.tracking.Some? && v.tracking.value != [] ==>
      && v.signatureFile == Some(Tip(v.tracking.value).signature)
      && v.snapshotFile == Some(Tip(v.tracking.value).snapshot)
  }

  ghost predicate SignsWhatItWrites(v: Device) {
    && (v.phase.Pushing? ==> v.head != [])
    && (v.phase.Writing? ==> SignatureLeq(v.phase.signature, SignatureOf(v.vault)))
    && (v.phase.Committing? ==>
          && v.snapshotFile.Some? && v.signatureFile.Some?
          && SignatureLeq(v.signatureFile.value, SignatureOf(v.snapshotFile.value)))
  }

  ghost predicate DeviceOk(v: Device, remote: Chain) {
    && TracksRemote(v, remote)
    && Climbing(v.head) && Honest(v.head)
    && FileAboveHead(v) && VaultAboveHead(v) && FilesAreTracked(v) && SignsWhatItWrites(v)
  }

  /**
   What the run is assumed to give each step: an edit carries a newer stamp than
   the record it replaces; a merge never meets one stamp with two contents, and
   reads a clock that is not behind a deletion it applies.
   */
  ghost predicate ActsWell(v: Device, ev: Event) {
    match ev
    case Edit(_, id, entry) => id in v.vault ==> v.vault[id].stamp < entry.stamp
    case MergeFile(_, _, now) =>
      v.snapshotFile.Some? ==>
        Agree(v.vault, v.snapshotFile.value) && ClockAhead(v.vault, v.snapshotFile.value, now)
    case _ => true
  }

  lemma {:induction false} ClimbingFromTo(chain: Chain, i: nat, j: nat)
    requires Climbing(chain) && i <= j < |chain|
    ensures Leq(chain[i].snapshot, chain[j].snapshot)
    decreases j
  {
    if i < j {
      ClimbingFromTo(chain, i, j - 1);
      LeqTransitive(chain[i].snapshot, chain[j - 1].snapshot, chain[j].snapshot);
    }
  }

  lemma PrefixKeeps(chain: Chain, prefix: Chain)
    requires prefix <= chain && Climbing(chain) && Honest(chain)
    ensures Climbing(prefix) && Honest(prefix)
  {}

  lemma EditKeeps(v: Device, remote: Chain, id: Id, entry: Entry)
    requires DeviceOk(v, remote) && (id in v.vault ==> v.vault[id].stamp < entry.stamp)
    ensures Leq(v.vault, v.vault[id := entry])
    ensures DeviceOk(v.(vault := v.vault[id := entry]), remote)
  {
    var edited := v.vault[id := entry];
    LeqSigns(v.vault, edited);
    if VaultAboveHead(v) && v.head != [] && (v.phase.Comparing? || v.phase.Writing?) {
      LeqTransitive(Tip(v.head).snapshot, v.vault, edited);
    }
  }

  lemma ResetKeeps(v: Device, remote: Chain, ok: bool)
    requires DeviceOk(v, remote) && Climbing(remote) && Honest(remote) && v.phase.Resetting?
    ensures DeviceOk(DoReset(v, ok), remote)
  {
    if v.tracking.Some? {
      PrefixKeeps(remote, v.tracking.value);
    }
  }

  lemma MergeKeeps(v: Device, remote: Chain, ok: bool, now: Stamp)
    requires DeviceOk(v, remote) && v.phase.Merging?
    requires v.snapshotFile.Some? ==>
             Agree(v.vault, v.snapshotFile.value) && ClockAhead(v.vault, v.snapshotFile.value, now)
    ensures DeviceOk(DoMerge(v, ok, now), remote)
    ensures Leq(v.vault, DoMerge(v, ok, now).vault)
  {
    if v.snapshotFile.Some? && ok {
      MergeDominates(v.vault, v.snapshotFile.value, now);
      if v.head != [] {
        LeqTransitive(Tip(v.head).snapshot, v.snapshotFile.value, DoMerge(v, ok, now).vault);
      }
    }
  }

  lemma CommitKeeps(v: Device, remote: Chain, ok: bool)
    requires DeviceOk(v, remote) && v.phase.Committing? && v.snapshotFile.Some? && v.signatureFile.Some?
    ensures DeviceOk(DoCommit(v, ok), remote)
  {
    if ok {
      var head := DoCommit(v, ok).head;
      forall i | 0 < i < |head|
        ensures Leq(head[i - 1].snapshot, head[i].snapshot)
      {
        if i == |head| - 1 {
          assert head[i - 1] == Tip(v.head);
        }
      }
    }
  }

  lemma RecloneKeeps(v: Device, remote: Chain)
    requires DeviceOk(v, remote) && Climbing(remote) && Honest(remote) && v.phase.Idle?
    ensures DeviceOk(DoReclone(v, remote), remote)
  {}

  lemma PushKeeps(v: Device, remote: Chain, reply: PushReply)
    requires DeviceOk(v, remote) && v.phase.Pushing? && (!reply.Refused? ==> remote <= v.head)
    ensures DeviceOk(Act(v, remote, Push(0, reply)), ActRemote(v, remote, Push(0, reply)))
  {}

  lemma DeviceStaysOk(v: Device, remote: Chain, ev: Event)
    requires DeviceOk(v, remote) && Climbing(remote) && Honest(remote)
    requires Ready(v, remote, ev) && ActsWell(v, ev)
    ensures DeviceOk(Act(v, remote, ev), ActRemote(v, remote, ev))
  {
    match ev {
      case Edit(_, id, entry) => EditKeeps(v, remote, id, entry);
      case Reset(_, ok) => ResetKeeps(v, remote, ok);
      case MergeFile(_, ok, now) => MergeKeeps(v, remote, ok, now);
      case MakeCommit(_, ok) => CommitKeeps(v, remote, ok);
      case Reclone(_) => RecloneKeeps(v, remote);
      case Push(_, reply) => PushKeeps(v, remote, reply);
      case _ =>
    }
  }

  /** One event keeps the device consistent, extends the branch upwards, and never lowers the vault. */
  lemma ActKeeps(v: Device, remote: Chain, ev: Event)
    requires DeviceOk(v, remote) && Climbing(remote) && Honest(remote)
    requires Ready(v, remote, ev) && ActsWell(v, ev)
    ensures DeviceOk(Act(v, remote, ev), ActRemote(v, remote, ev))
    ensures Climbing(ActRemote(v, remote, ev)) && Honest(ActRemote(v, remote, ev))
    ensures remote <= ActRemote(v, remote, ev)
    ensures Leq(v.vault, Act(v, remote, ev).vault)
  {
    DeviceStaysOk(v, remote, ev);
  }
}
