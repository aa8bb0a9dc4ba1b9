/**
 What re-stamped deletions do to repeated rounds: the exact condition under which
 rounds converge, the endless commits when it fails, and the newer edit that a
 relayed deletion buries.
 */
module SyncDeletions {
  import opened Records
  import opened SyncRounds

  /** Every stamp in the world lies in a millisecond before `horizon`. */
  ghost predicate Before(w: World, horizon: nat) {
    forall k, id :: 0 <= k <= |w.vaults| && id in Source(w, k) ==> Source(w, k)[id].stamp / NANOS_PER_MILLI < horizon
  }

  ghost predicate Ahead(clock: seq<Stamp>, horizon: nat) {
    forall i :: 0 <= i < |clock| ==> clock[i] / NANOS_PER_MILLI >= horizon
  }

  /** The vault holds record `id` under a stamp that nothing in the original world had. */
  predicate Past(v: Vault, id: Id, horizon: nat) {
    id in v && v[id].stamp / NANOS_PER_MILLI >= horizon
  }

  /** The exposed device's own round publishes the deletion, at its stamp or a later one. */
  lemma ExposedRound(w: World, e: nat, id: Id, now: Stamp, horizon: nat)
    requires Coherent(w) && Before(w, horizon) && now / NANOS_PER_MILLI >= horizon
    requires e < |w.vaults| && Exposed(w, e, id)
    ensures var r := Round(w, e, now);
            id in r.remote && r.remote[id].Tombstone? && r.remote[id].stamp >= Next(w, e)[id].stamp
    ensures Applies(w.vaults[e], w.remote, id) ==> Past(Round(w, e, now).vaults[e], id, horizon)
  {
    var v, m := w.vaults[e], Merged(w, e, now);
    assert Source(w, |w.vaults|) == w.remote && Source(w, e) == v;
    if Applies(v, w.remote, id) {
      assert m[id] == Tombstone(now);
      assert SignatureOf(m)[id] != SignatureOf(w.remote)[id];
    } else if !Commits(w, e, now) {
      assert id in SignatureOf(m) && id in SignatureOf(w.remote);
      assert SignatureOf(m)[id] == SignatureOf(w.remote)[id];
      assert AgreeToTheMilli(Source(w, |w.vaults|), Source(w, e));
    }
  }

  /** The snapshot holds a deletion newer than anything device `d` has for that record. */
  predicate Behind(w: World, d: nat, id: Id)
    requires d < |w.vaults|
  {
    && id in w.remote && w.remote[id].Tombstone?
    && (id in w.vaults[d] ==> w.vaults[d][id].stamp < w.remote[id].stamp)
  }

  lemma {:induction false} PastForGood(
      w: World, sched: seq<nat>, clock: seq<Stamp>, m: nat, n: nat, d: nat, id: Id, horizon: nat)
    requires m <= n <= |sched| == |clock| && Schedule(w, sched) && Ahead(clock, horizon) && d < |w.vaults|
    requires Past(After(w, sched, clock, m).vaults[d], id, horizon)
    ensures Past(After(w, sched, clock, n).vaults[d], id, horizon)
    decreases n
  {
    if n > m {
      PastForGood(w, sched, clock, m, n - 1, d, id, horizon);
      if sched[n - 1] == d {
        var before := After(w, sched, clock, n - 1);
      }
    }
  }

  /** A schedule that lets the deletion reach the unaware device leaves that device past the join for good. */
  lemma UnsafeDiverges(w: World, d: nat, e: nat, id: Id, sched: seq<nat>, clock: seq<Stamp>, horizon: nat)
    requires Coherent(w) && Before(w, horizon)
    requires d < |w.vaults| && e < |w.vaults| && Exposed(w, e, id)
    requires id in w.vaults[d] ==> w.vaults[d][id].stamp < Next(w, e)[id].stamp
    requires 2 <= |sched| == |clock| && Schedule(w, sched) && Ahead(clock, horizon)
    requires sched[0] == e && sched[1] == d
    ensures Past(After(w, sched, clock, |sched|).vaults[d], id, horizon)
  {
    ExposedRound(w, e, id, clock[0], horizon);
    assert After(w, sched, clock, 0) == w;
    var one := After(w, sched, clock, 1);
    assert one == Round(w, e, clock[0]);
    if d == e {
      PastForGood(w, sched, clock, 1, |sched|, d, id, horizon);
    } else {
      assert Behind(one, d, id);
      assert After(w, sched, clock, 2) == Round(one, d, clock[1]);
      PastForGood(w, sched, clock, 2, |sched|, d, id, horizon);
    }
  }

  lemma TotalIsBefore(w: World, id: Id, horizon: nat)
    requires Before(w, horizon)
    ensures !Past(Total(w), id, horizon)
  {
    if id in Total(w) {
      var k := JoinToHasSource(w, |w.vaults|, id);
    }
  }

  function EveryDevice(n: nat): (s: seq<nat>) { seq(n, i => i) }

  lemma SweepsAfterPrefix(w: World, e: nat, d: nat)
    requires d < |w.vaults| && e < |w.vaults|
    ensures var n := |w.vaults|;
            TwoSweeps(w, [e, d] + EveryDevice(n) + EveryDevice(n), n + 2)
  {
    var n := |w.vaults|;
    var mid := n + 2;
    var sched := [e, d] + EveryDevice(n) + EveryDevice(n);
    forall k | 0 <= k < n
      ensures Ran(sched, 0, mid, k)
    {
      assert sched[2 + k] == k;
    }
    forall k | 0 <= k < n
      ensures Ran(sched, mid, |sched|, k)
    {
      assert sched[mid + k] == k;
    }
  }

  /** All schedules that sweep the devices twice, on clocks past everything stored, end at the join. */
  ghost predicate AlwaysConverges(w: World, horizon: nat) {
    forall sched, clock, mid :: TwoSweeps(w, sched, mid) && Ahead(clock, horizon) && |clock| == |sched|
      ==> SettledAt(After(w, sched, clock, |sched|), Total(w))
  }

  /** Rounds converge to the join of all vaults, however they are scheduled, exactly from safe worlds. */
  lemma ConvergesExactlyWhenSafe(w: World, horizon: nat)
    requires Coherent(w) && Before(w, horizon) && w.vaults != []
    ensures Safe(w) <==> AlwaysConverges(w, horizon)
  {
    if Safe(w) {
      forall sched, clock, mid | TwoSweeps(w, sched, mid) && Ahead(clock, horizon) && |clock| == |sched|
        ensures SettledAt(After(w, sched, clock, |sched|), Total(w))
      {
        SafeConverges(w, sched, clock, mid);
      }
    } else {
      var d, e, id :| 0 <= d < |w.vaults| && 0 <= e < |w.vaults| && Exposed(w, e, id)
        && !(id in w.vaults[d] && w.vaults[d][id].stamp >= Next(w, e)[id].stamp);
      var n := |w.vaults|;
      var sched := [e, d] + EveryDevice(n) + EveryDevice(n);
      var clock := seq(|sched|, i => horizon * NANOS_PER_MILLI);
      SweepsAfterPrefix(w, e, d);
      assert horizon * NANOS_PER_MILLI / NANOS_PER_MILLI == horizon;
      assert Ahead(clock, horizon);
      UnsafeDiverges(w, d, e, id, sched, clock, horizon);
      TotalIsBefore(w, id, horizon);
      assert !SettledAt(After(w, sched, clock, |sched|), Total(w));
    }
  }

  // ----- Two rounds per device are not two sweeps -----

  ghost predicate OnlyWith(w: World, e: nat, id: Id) {
    && id !in w.remote
    && forall k :: 0 <= k < |w.vaults| && k != e ==> id !in w.vaults[k]
  }

  lemma {:induction false} UnheardUntilItRuns(w: World, sched: seq<nat>, clock: seq<Stamp>, n: nat, e: nat, id: Id)
    requires n <= |sched| == |clock| && Schedule(w, sched) && OnlyWith(w, e, id)
    requires !Ran(sched, 0, n, e)
    ensures OnlyWith(After(w, sched, clock, n), e, id)
  {
    if n > 0 {
      assert !Ran(sched, 0, n - 1, e);
      UnheardUntilItRuns(w, sched, clock, n - 1, e, id);
      assert sched[n - 1] != e;
    }
  }

  lemma {:induction false} IdleVaultStays(w: World, sched: seq<nat>, clock: seq<Stamp>, m: nat, n: nat, d: nat)
    requires m <= n <= |sched| == |clock| && Schedule(w, sched) && d < |w.vaults|
    requires !Ran(sched, m, n, d)
    ensures After(w, sched, clock, n).vaults[d] == After(w, sched, clock, m).vaults[d]
    decreases n
  {
    if n > m {
      assert !Ran(sched, m, n - 1, d);
      IdleVaultStays(w, sched, clock, m, n - 1, d);
      assert sched[n - 1] != d;
    }
  }

  /**
   However often each device runs, one whose rounds all come before another's
   first ends without the records only that other device had. Two rounds each,
   back to back, are such a schedule.
   */
  lemma RunningBeforeIsNeverHearing(w: World, sched: seq<nat>, clock: seq<Stamp>, m: nat, d: nat, e: nat, id: Id)
    requires m <= |sched| == |clock| && Schedule(w, sched) && d < |w.vaults| && e < |w.vaults| && d != e
    requires !Ran(sched, 0, m, e) && !Ran(sched, m, |sched|, d)
    requires OnlyWith(w, e, id) && id in w.vaults[e]
    ensures id !in After(w, sched, clock, |sched|).vaults[d]
    ensures Coherent(w) ==> id in Total(w)
  {
    UnheardUntilItRuns(w, sched, clock, m, e, id);
    IdleVaultStays(w, sched, clock, m, |sched|, d);
    if Coherent(w) {
      JoinToIsUpperBound(w, |w.vaults|);
    }
  }

  // ----- One deletion, endless commits -----

  /** A published deletion that only device `last` may already hold. */
  ghost predicate Chasing(w: World, last: nat, id: Id) {
    && id in w.remote && w.remote[id].Tombstone?
    && forall e :: 0 <= e < |w.vaults| && id in w.vaults[e] ==>
         if e == last then w.vaults[e][id].stamp <= w.remote[id].stamp
         else w.vaults[e][id].stamp < w.remote[id].stamp
  }

  lemma ChasingRound(w: World, last: nat, d: nat, id: Id, now: Stamp)
    requires Chasing(w, last, id) && d < |w.vaults| && d != last
    requires now / NANOS_PER_MILLI > w.remote[id].stamp / NANOS_PER_MILLI
    ensures Commits(w, d, now)
    ensures Chasing(Round(w, d, now), d, id) && Round(w, d, now).remote[id] == Tombstone(now)
  {
    var m := Merged(w, d, now);
    assert m[id] == Tombstone(now);
    assert SignatureOf(m)[id] != SignatureOf(w.remote)[id];
  }

  /** No device runs twice in a row. */
  predicate Alternates(sched: seq<nat>, last: nat) {
    && (sched != [] ==> sched[0] != last)
    && forall i :: 0 < i < |sched| ==> sched[i] != sched[i - 1]
  }

  /** Each clock reading falls in a later millisecond than the one before. */
  predicate Ticks(clock: seq<Stamp>, start: Stamp) {
    && (clock != [] ==> start / NANOS_PER_MILLI < clock[0] / NANOS_PER_MILLI)
    && forall i :: 0 < i < |clock| ==> clock[i - 1] / NANOS_PER_MILLI < clock[i] / NANOS_PER_MILLI
  }

  /** Every one of the rounds makes a commit, however many there are and with no edit anywhere. */
  lemma {:induction false} DeletionNeverSettles(w: World, last: nat, id: Id, sched: seq<nat>, clock: seq<Stamp>, n: nat)
    requires n < |sched| == |clock| && Schedule(w, sched)
    requires Chasing(w, last, id) && Alternates(sched, last) && Ticks(clock, w.remote[id].stamp)
    ensures Commits(After(w, sched, clock, n), sched[n], clock[n])
    ensures Chasing(After(w, sched, clock, n + 1), sched[n], id)
    ensures After(w, sched, clock, n + 1).remote[id] == Tombstone(clock[n])
  {
    if n == 0 {
      ChasingRound(w, last, sched[0], id, clock[0]);
    } else {
      DeletionNeverSettles(w, last, id, sched, clock, n - 1);
      ChasingRound(After(w, sched, clock, n), sched[n - 1], sched[n], id, clock[n]);
    }
  }

  // ----- A relayed deletion outlives a newer edit -----

  /**
   Device `e` edited the record after it was deleted elsewhere, so by the
   documented merge the edit wins. If another device relays the deletion first,
   the relay's own clock re-dates it past the edit and `e` loses it.
   */
  lemma RelayedDeletionBuriesNewerEdit(w: World, d: nat, e: nat, id: Id, now: Stamp, later: Stamp)
    requires d < |w.vaults| && e < |w.vaults| && d != e && Behind(w, d, id)
    requires id in w.vaults[e] && w.vaults[e][id].Live?
    requires w.remote[id].stamp < w.vaults[e][id].stamp < now
    requires w.remote[id].stamp / NANOS_PER_MILLI < now / NANOS_PER_MILLI
    ensures Join(w.vaults[e], w.remote)[id] == w.vaults[e][id]
    ensures Round(Round(w, d, now), e, later).vaults[e][id] == Tombstone(later)
  {
    var r := Round(w, d, now);
    assert Merged(w, d, now)[id] == Tombstone(now);
    assert SignatureOf(Merged(w, d, now))[id] != SignatureOf(w.remote)[id];
    assert r.remote[id] == Tombstone(now) && r.vaults[e] == w.vaults[e];
  }

  /**
   Relay first, exactly: device `e` keeps its edit if and only if the deletion as
   then published - at the relay's clock if the relay commits, at its old stamp if
   not - is not later than the edit. What `e`'s own clock reads does not matter.
   */
  lemma RelayedDeletionExactly(w: World, d: nat, e: nat, id: Id, now: Stamp, later: Stamp)
    requires d < |w.vaults| && e < |w.vaults| && d != e && Behind(w, d, id)
    requires id in w.vaults[e] && w.vaults[e][id].Live?
    ensures Round(Round(w, d, now), e, later).vaults[e][id] == w.vaults[e][id]
       <==> (if Commits(w, d, now) then now else w.remote[id].stamp) <= w.vaults[e][id].stamp
  {
    var r := Round(w, d, now);
    assert Merged(w, d, now)[id] == Tombstone(now);
    assert r.vaults[e] == w.vaults[e] && id in r.remote && r.remote[id].Tombstone?;
    assert r.remote[id].stamp == if Commits(w, d, now) then now else w.remote[id].stamp;
  }

  /** Had device `e` gone first, the edit would have survived on every device. */
  lemma NewerEditFirstSurvives(w: World, d: nat, e: nat, id: Id, now: Stamp, later: Stamp)
    requires d < |w.vaults| && e < |w.vaults| && d != e && Behind(w, d, id)
    requires id in w.vaults[e] && w.vaults[e][id].Live?
    requires w.remote[id].stamp < w.vaults[e][id].stamp
    ensures Round(Round(w, e, now), d, later).vaults[d][id] == w.vaults[e][id]
  {
    var r := Round(w, e, now);
    assert Merged(w, e, now)[id] == w.vaults[e][id];
    assert SignatureOf(Merged(w, e, now))[id] != SignatureOf(w.remote)[id];
    assert r.remote[id] == w.vaults[e][id] && r.vaults[d] == w.vaults[d];
  }
}
