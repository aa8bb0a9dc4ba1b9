/** When repeated rounds stop making commits. */
module SyncQuiet {
  import opened Records
  import opened SyncRounds
  import opened SyncDeletions

  /** From the millisecond `past` on, no device's round would publish anything. */
  ghost predicate Quiet(w: World, past: nat) {
    forall d, now {:trigger Commits(w, d, now)} ::
      0 <= d < |w.vaults| && now / NANOS_PER_MILLI >= past ==> !Commits(w, d, now)
  }

  /** Clock readings in ever later milliseconds, all before `past`. */
  ghost predicate Ticking(clock: seq<Stamp>, past: nat) {
    && (forall i :: 0 < i < |clock| ==> clock[i - 1] / NANOS_PER_MILLI < clock[i] / NANOS_PER_MILLI)
    && forall i :: 0 <= i < |clock| ==> clock[i] / NANOS_PER_MILLI < past
  }

  // ----- One published deletion, ahead of everyone but its last runner -----

  ghost predicate Caught(w: World, last: nat, id: Id) {
    && last < |w.vaults|
    && id in w.remote && w.remote[id].Tombstone?
    && id in w.vaults[last] && w.vaults[last][id] == w.remote[id]
    && forall e :: 0 <= e < |w.vaults| && e != last && id in w.vaults[e] ==> w.vaults[e][id].stamp < w.remote[id].stamp
  }

  lemma CaughtRound(w: World, last: nat, d: nat, id: Id, now: Stamp)
    requires Caught(w, last, id) && d < |w.vaults|
    requires w.remote[id].stamp / NANOS_PER_MILLI < now / NANOS_PER_MILLI
    ensures Caught(Round(w, d, now), d, id) || (d == last && Caught(Round(w, d, now), last, id))
    ensures Round(w, d, now).remote[id] == if d == last then w.remote[id] else Tombstone(now)
    ensures d != last ==> Commits(w, d, now)
  {
    var m := Merged(w, d, now);
    if d == last {
      assert m[id] == w.remote[id];
    } else {
      assert w.remote[id].stamp < now;
      assert m[id] == Tombstone(now);
      assert SignatureOf(m)[id] != SignatureOf(w.remote)[id];
    }
  }

  /** The world is caught before round `n`, at a stamp earlier than that round's clock. */
  ghost predicate CaughtAt(w: World, sched: seq<nat>, clock: seq<Stamp>, n: nat, last: nat, id: Id, past: nat)
    requires n <= |sched| == |clock| && Schedule(w, sched)
  {
    && Caught(After(w, sched, clock, n), last, id)
    && After(w, sched, clock, n).remote[id].stamp / NANOS_PER_MILLI < past
    && (n < |clock| ==> After(w, sched, clock, n).remote[id].stamp / NANOS_PER_MILLI < clock[n] / NANOS_PER_MILLI)
  }

  lemma CaughtStep(w: World, sched: seq<nat>, clock: seq<Stamp>, n: nat, last: nat, id: Id, past: nat)
    requires n < |sched| == |clock| && Schedule(w, sched) && Ticking(clock, past)
    requires CaughtAt(w, sched, clock, n, last, id, past)
    ensures CaughtAt(w, sched, clock, n + 1, sched[n], id, past)
  {
    CaughtRound(After(w, sched, clock, n), last, sched[n], id, clock[n]);
    assert After(w, sched, clock, n + 1) == Round(After(w, sched, clock, n), sched[n], clock[n]);
  }

  /** The device that ran last before round `n`, counting from round `m`, before which it was `first`. */
  function LastRunner(sched: seq<nat>, m: nat, n: nat, first: nat): nat
    requires m <= n <= |sched|
  {
    if n == m then first else sched[n - 1]
  }

  lemma {:induction false} CaughtRun(
      w: World, sched: seq<nat>, clock: seq<Stamp>, m: nat, n: nat, first: nat, id: Id, past: nat)
    requires m <= n <= |sched| == |clock| && Schedule(w, sched) && Ticking(clock, past)
    requires CaughtAt(w, sched, clock, m, first, id, past)
    ensures CaughtAt(w, sched, clock, n, LastRunner(sched, m, n, first), id, past)
    decreases n
  {
    if n > m {
      CaughtRun(w, sched, clock, m, n - 1, first, id, past);
      CaughtStep(w, sched, clock, n - 1, LastRunner(sched, m, n - 1, first), id, past);
    }
  }

  lemma CaughtIsNotQuiet(w: World, last: nat, id: Id, past: nat)
    requires Caught(w, last, id) && |w.vaults| >= 2 && w.remote[id].stamp / NANOS_PER_MILLI < past
    ensures !Quiet(w, past)
  {
    var d := if last == 0 then 1 else 0;
    var now := past * NANOS_PER_MILLI;
    assert now / NANOS_PER_MILLI == past;
    CaughtRound(w, last, d, id, now);
  }

  // ----- An unsafe world can be caught -----

  /** After a round every stamp in the world is an old one or the round's own. */
  lemma RoundStamps(w: World, d: nat, now: Stamp, horizon: nat)
    requires Before(w, horizon) && d < |w.vaults| && now / NANOS_PER_MILLI >= horizon
    ensures forall k, id :: 0 <= k <= |w.vaults| && id in Source(Round(w, d, now), k)
              ==> Source(Round(w, d, now), k)[id].stamp / NANOS_PER_MILLI <= now / NANOS_PER_MILLI
  {
    var r := Round(w, d, now);
    forall k, id | 0 <= k <= |w.vaults| && id in Source(r, k)
      ensures Source(r, k)[id].stamp / NANOS_PER_MILLI <= now / NANOS_PER_MILLI
    {
      assert Source(w, d) == w.vaults[d] && Source(w, |w.vaults|) == w.remote;
      if id in Source(w, k) {
        assert Source(w, k)[id].stamp / NANOS_PER_MILLI < horizon;
      }
    }
  }

  /** The next round by a device behind a published deletion catches the world. */
  lemma BehindIsCaught(w: World, d: nat, id: Id, earlier: Stamp, now: Stamp)
    requires d < |w.vaults| && Behind(w, d, id) && earlier / NANOS_PER_MILLI < now / NANOS_PER_MILLI
    requires forall k, i :: 0 <= k <= |w.vaults| && i in Source(w, k)
               ==> Source(w, k)[i].stamp / NANOS_PER_MILLI <= earlier / NANOS_PER_MILLI
    ensures Caught(Round(w, d, now), d, id) && Round(w, d, now).remote[id] == Tombstone(now)
  {
    var m := Merged(w, d, now);
    assert Source(w, |w.vaults|) == w.remote;
    assert m[id] == Tombstone(now);
    assert SignatureOf(m)[id] != SignatureOf(w.remote)[id];
    forall e | 0 <= e < |w.vaults| && e != d && id in w.vaults[e]
      ensures w.vaults[e][id].stamp < now
    {
      assert Source(w, e) == w.vaults[e];
    }
  }

  /** In an unsafe world some device's round leaves another behind a published deletion. */
  lemma UnsafeLeavesBehind(w: World, now: Stamp, horizon: nat) returns (e: nat, d: nat, id: Id)
    requires Coherent(w) && Before(w, horizon) && !Safe(w) && |w.vaults| >= 2 && now / NANOS_PER_MILLI >= horizon
    ensures e < |w.vaults| && d < |w.vaults| && Behind(Round(w, e, now), d, id)
  {
    d, e, id :| 0 <= d < |w.vaults| && 0 <= e < |w.vaults| && Exposed(w, e, id)
      && !(id in w.vaults[d] && w.vaults[d][id].stamp >= Next(w, e)[id].stamp);
    ExposedRound(w, e, id, now, horizon);
    if d == e {
      d := if e == 0 then 1 else 0;
      assert Applies(w.vaults[e], w.remote, id);
      assert Merged(w, e, now)[id] == Tombstone(now);
      assert Source(w, |w.vaults|) == w.remote && Source(w, d) == w.vaults[d];
      assert SignatureOf(Merged(w, e, now))[id] != SignatureOf(w.remote)[id];
    }
  }

  /** One clock reading a millisecond, from `start` on. */
  function Readings(n: nat, start: nat): (clock: seq<Stamp>) {
    seq(n, i requires 0 <= i < n => (start + i) * NANOS_PER_MILLI)
  }

  lemma ReadingsTick(n: nat, start: nat)
    ensures Ticking(Readings(n, start), start + n) && Ahead(Readings(n, start), start)
  {
    assert forall i :: 0 <= i < n ==> Readings(n, start)[i] / NANOS_PER_MILLI == start + i;
  }

  lemma UnsafeIsNotQuiet(w: World, horizon: nat) returns (sched: seq<nat>, clock: seq<Stamp>, mid: nat, past: nat)
    requires Coherent(w) && Before(w, horizon) && !Safe(w) && |w.vaults| >= 2
    ensures TwoSweeps(w, sched, mid) && |clock| == |sched| && Ahead(clock, horizon) && Ticking(clock, past)
    ensures !Quiet(After(w, sched, clock, |sched|), past)
  {
    var n := |w.vaults|;
    var e, d, id := UnsafeLeavesBehind(w, horizon * NANOS_PER_MILLI, horizon);
    sched, mid := [e, d] + EveryDevice(n) + EveryDevice(n), n + 2;
    clock, past := Readings(|sched|, horizon), horizon + |sched|;
    SweepsAfterPrefix(w, e, d);
    ReadingsTick(|sched|, horizon);
    CatchFromTheStart(w, sched, clock, e, d, id, horizon, past);
  }

  lemma CatchFromTheStart(w: World, sched: seq<nat>, clock: seq<Stamp>, e: nat, d: nat, id: Id, horizon: nat, past: nat)
    requires Before(w, horizon) && |w.vaults| >= 2 && 2 <= |sched| == |clock| && Schedule(w, sched)
    requires Ahead(clock, horizon) && Ticking(clock, past) && sched[0] == e && sched[1] == d
    requires clock[0] == horizon * NANOS_PER_MILLI && Behind(Round(w, e, horizon * NANOS_PER_MILLI), d, id)
    ensures !Quiet(After(w, sched, clock, |sched|), past)
  {
    assert After(w, sched, clock, 0) == w;
    var one := After(w, sched, clock, 1);
    assert one == Round(w, e, clock[0]);
    RoundStamps(w, e, clock[0], horizon);
    BehindIsCaught(one, d, id, clock[0], clock[1]);
    assert After(w, sched, clock, 2) == Round(one, d, clock[1]);
    CaughtRun(w, sched, clock, 2, |sched|, d, id, past);
    CaughtIsNotQuiet(After(w, sched, clock, |sched|), LastRunner(sched, 2, |sched|, d), id, past);
  }

  // ----- A device on its own -----

  lemma BuryingCommits(w: World, d: nat, id: Id, now: Stamp, horizon: nat)
    requires Before(w, horizon) && d < |w.vaults| && now / NANOS_PER_MILLI >= horizon
    requires Buries(w.vaults[d], w.remote, id)
    ensures Commits(w, d, now)
  {
    var m := Merged(w, d, now);
    assert Source(w, |w.vaults|) == w.remote;
    assert m[id] == Tombstone(now);
    assert SignatureOf(m)[id] != SignatureOf(w.remote)[id];
  }

  lemma AloneSettles(w: World, now: Stamp, horizon: nat)
    requires Coherent(w) && Before(w, horizon) && |w.vaults| == 1 && now / NANOS_PER_MILLI >= horizon
    ensures SettledAt(Round(w, 0, now), Round(w, 0, now).remote)
  {
    if !Commits(w, 0, now) {
      forall id | Buries(w.vaults[0], w.remote, id)
        ensures false
      {
        BuryingCommits(w, 0, id, now, horizon);
      }
      MergeIsJoin(w.vaults[0], w.remote, now);
      AgreesWithNext(w, 0, 1);
      EqualSignaturesEqualVaults(Merged(w, 0, now), w.remote);
    }
  }

  lemma {:induction false} AloneStays(w: World, sched: seq<nat>, clock: seq<Stamp>, n: nat, horizon: nat)
    requires Coherent(w) && Before(w, horizon) && |w.vaults| == 1
    requires 1 <= n <= |sched| == |clock| && Schedule(w, sched) && Ahead(clock, horizon)
    ensures SettledAt(After(w, sched, clock, n), After(w, sched, clock, n).remote)
  {
    if n == 1 {
      assert After(w, sched, clock, 0) == w;
      AloneSettles(w, clock[0], horizon);
    } else {
      AloneStays(w, sched, clock, n - 1, horizon);
      SettledIsQuiet(After(w, sched, clock, n - 1), After(w, sched, clock, n - 1).remote, sched[n - 1], clock[n - 1]);
    }
  }

  lemma SettledMeansQuiet(w: World, top: Vault, past: nat)
    requires SettledAt(w, top)
    ensures Quiet(w, past)
  {
    forall d, now | 0 <= d < |w.vaults| && now / NANOS_PER_MILLI >= past
      ensures !Commits(w, d, now)
    {
      SettledIsQuiet(w, top, d, now);
    }
  }

  /** However two sweeps are scheduled, on clocks past everything stored, they end where no round commits any more. */
  ghost predicate AlwaysQuiet(w: World, horizon: nat) {
    forall sched, clock, mid, past ::
      TwoSweeps(w, sched, mid) && |clock| == |sched| && Ahead(clock, horizon) && Ticking(clock, past)
      ==> Quiet(After(w, sched, clock, |sched|), past)
  }

  /** Rounds stop committing, whatever their order, exactly from safe worlds and for a device on its own. */
  lemma QuietExactly(w: World, horizon: nat)
    requires Coherent(w) && Before(w, horizon) && w.vaults != []
    ensures Safe(w) || |w.vaults| == 1 <==> AlwaysQuiet(w, horizon)
  {
    if Safe(w) || |w.vaults| == 1 {
      forall sched, clock, mid, past |
        TwoSweeps(w, sched, mid) && |clock| == |sched| && Ahead(clock, horizon) && Ticking(clock, past)
        ensures Quiet(After(w, sched, clock, |sched|), past)
      {
        if Safe(w) {
          SafeConverges(w, sched, clock, mid);
          SettledMeansQuiet(After(w, sched, clock, |sched|), Total(w), past);
        } else {
          assert Ran(sched, 0, mid, 0);
          AloneStays(w, sched, clock, |sched|, horizon);
          SettledMeansQuiet(After(w, sched, clock, |sched|), After(w, sched, clock, |sched|).remote, past);
        }
      }
    } else {
      var sched, clock, mid, past := UnsafeIsNotQuiet(w, horizon);
      assert !Quiet(After(w, sched, clock, |sched|), past);
    }
  }
}
