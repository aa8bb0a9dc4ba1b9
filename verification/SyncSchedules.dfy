/** Which schedules of rounds bring every device up to date, whatever the vaults held. */
module SyncSchedules {
  import opened Records
  import opened SyncRounds
  import opened SyncDeletions

  /** Round `i` is the first of device `e`. */
  ghost predicate FirstAt(sched: seq<nat>, e: nat, i: nat) {
    i < |sched| && sched[i] == e && !Ran(sched, 0, i, e)
  }

  /** Device `d` has a round after device `e`'s first. */
  ghost predicate HeardBy(sched: seq<nat>, d: nat, e: nat) {
    exists i: nat :: FirstAt(sched, e, i) && Ran(sched, i + 1, |sched|, d)
  }

  /** Every one of `n` devices runs, and every other one runs again after its first round. */
  ghost predicate Hears(sched: seq<nat>, n: nat) {
    && AllRan(sched, |sched|, n)
    && forall d, e {:trigger HeardBy(sched, d, e)} :: 0 <= d < n && 0 <= e < n && d != e ==> HeardBy(sched, d, e)
  }

  lemma {:induction false} HasFirst(sched: seq<nat>, e: nat, hi: nat) returns (i: nat)
    requires hi <= |sched| && Ran(sched, 0, hi, e)
    ensures i < hi && FirstAt(sched, e, i)
  {
    if Ran(sched, 0, hi - 1, e) {
      i := HasFirst(sched, e, hi - 1);
    } else {
      i := hi - 1;
    }
  }

  /** The first `n` devices have all run before round `mid`. */
  ghost predicate AllRan(sched: seq<nat>, mid: nat, n: nat)
    requires mid <= |sched|
  {
    forall e {:trigger Ran(sched, 0, mid, e)} :: 0 <= e < n ==> Ran(sched, 0, mid, e)
  }

  lemma RanSooner(sched: seq<nat>, lo: nat, hi: nat, n: nat)
    requires lo <= hi <= |sched| && AllRan(sched, lo, n)
    ensures AllRan(sched, hi, n)
  {
    forall e | 0 <= e < n
      ensures Ran(sched, 0, hi, e)
    {
      assert Ran(sched, 0, lo, e);
    }
  }

  /** The device whose first round comes last: with it every device has run. */
  lemma {:induction false} LastToStart(sched: seq<nat>, n: nat) returns (last: nat, mid: nat)
    requires n >= 1 && AllRan(sched, |sched|, n)
    ensures last < n && 1 <= mid <= |sched| && FirstAt(sched, last, mid - 1) && AllRan(sched, mid, n)
    decreases n
  {
    assert Ran(sched, 0, |sched|, n - 1);
    var j := HasFirst(sched, n - 1, |sched|);
    assert Ran(sched, 0, j + 1, n - 1);
    if n == 1 {
      last, mid := 0, j + 1;
    } else {
      last, mid := LastToStart(sched, n - 1);
      if mid < j + 1 {
        RanSooner(sched, mid, j + 1, n - 1);
        last, mid := n - 1, j + 1;
      } else {
        assert Ran(sched, 0, mid, n - 1);
      }
    }
  }

  lemma FirstIsUnique(sched: seq<nat>, e: nat, i: nat, j: nat)
    requires FirstAt(sched, e, i) && FirstAt(sched, e, j)
    ensures i == j
  {}

  lemma HeardAfter(sched: seq<nat>, d: nat, e: nat, mid: nat)
    requires 1 <= mid <= |sched| && FirstAt(sched, e, mid - 1)
    ensures HeardBy(sched, d, e) <==> Ran(sched, mid, |sched|, d)
  {
    if HeardBy(sched, d, e) {
      var i: nat :| FirstAt(sched, e, i) && Ran(sched, i + 1, |sched|, d);
      FirstIsUnique(sched, e, i, mid - 1);
    }
  }

  /** A vault that is at the top when the snapshot is stays there. */
  lemma StaysAtTop(w: World, sched: seq<nat>, clock: seq<Stamp>, mid: nat, d: nat, top: Vault)
    requires mid <= |sched| == |clock| && Schedule(w, sched) && d < |w.vaults|
    requires forall m :: mid <= m < |sched| ==> Climbs(w, sched, clock, m, top)
    requires After(w, sched, clock, mid).remote == top
    requires After(w, sched, clock, mid).vaults[d] == top || Ran(sched, mid, |sched|, d)
    ensures After(w, sched, clock, |sched|).vaults[d] == top && After(w, sched, clock, |sched|).remote == top
  {
    Absorbed(w, sched, clock, mid, |sched|, d, top);
    if !Ran(sched, mid, |sched|, d) {
      IdleVaultStays(w, sched, clock, mid, |sched|, d);
    }
  }

  lemma HearingSettles(w: World, sched: seq<nat>, clock: seq<Stamp>)
    requires Coherent(w) && Safe(w) && w.vaults != []
    requires Schedule(w, sched) && |clock| == |sched| && Hears(sched, |w.vaults|)
    ensures SettledAt(After(w, sched, clock, |sched|), Total(w))
  {
    var last, mid := LastToStart(sched, |w.vaults|);
    SafeRunClimbs(w, sched, clock, mid);
    HearingClimbsSettle(w, sched, clock, last, mid);
  }

  lemma HearingClimbsSettle(w: World, sched: seq<nat>, clock: seq<Stamp>, last: nat, mid: nat)
    requires w.vaults != [] && Schedule(w, sched) && |clock| == |sched| && Hears(sched, |w.vaults|)
    requires last < |w.vaults| && 1 <= mid <= |sched| && FirstAt(sched, last, mid - 1) && AllRan(sched, mid, |w.vaults|)
    requires forall m :: 0 <= m < |sched| ==> Climbs(w, sched, clock, m, Total(w))
    requires Leq(w.remote, After(w, sched, clock, mid).remote)
    requires Leq(After(w, sched, clock, mid).remote, Total(w))
    ensures SettledAt(After(w, sched, clock, |sched|), Total(w))
  {
    HalfwayAtTop(w, sched, clock, mid);
    assert Climbs(w, sched, clock, mid - 1, Total(w));
    forall d | 0 <= d < |w.vaults|
      ensures After(w, sched, clock, |sched|).vaults[d] == Total(w)
              && After(w, sched, clock, |sched|).remote == Total(w)
    {
      if d != last {
        assert HeardBy(sched, d, last);
        HeardAfter(sched, d, last, mid);
      }
      StaysAtTop(w, sched, clock, mid, d, Total(w));
    }
    assert After(w, sched, clock, |sched|).vaults[0] == Total(w);
  }

  // ----- And no other schedule does -----

  /** One record, on device `e` alone. */
  function Lone(n: nat, e: nat): World {
    World(seq(n, k => if k == e then map[0 := Live(0, 0)] else map[]), map[])
  }

  lemma LoneIsSafe(n: nat, e: nat)
    requires e < n
    ensures Coherent(Lone(n, e)) && Safe(Lone(n, e)) && OnlyWith(Lone(n, e), e, 0) && 0 in Total(Lone(n, e))
  {
    var w := Lone(n, e);
    assert forall d, id :: 0 <= d < n ==> !Exposed(w, d, id);
    JoinToIsUpperBound(w, n);
    assert Leq(w.vaults[e], Total(w));
  }

  lemma UnheardDoesNotSettle(sched: seq<nat>, clock: seq<Stamp>, n: nat, d: nat, e: nat)
    requires d < n && e < n && |clock| == |sched| && Schedule(Lone(n, e), sched)
    requires !Ran(sched, 0, |sched|, e) || (d != e && !HeardBy(sched, d, e))
    ensures !SettledAt(After(Lone(n, e), sched, clock, |sched|), Total(Lone(n, e)))
  {
    var w := Lone(n, e);
    LoneIsSafe(n, e);
    if !Ran(sched, 0, |sched|, e) {
      UnheardUntilItRuns(w, sched, clock, |sched|, e, 0);
    } else {
      var i := HasFirst(sched, e, |sched|);
      HeardAfter(sched, d, e, i + 1);
      assert !Ran(sched, i, |sched|, d);
      RunningBeforeIsNeverHearing(w, sched, clock, i, d, e, 0);
    }
  }

  lemma Unheard(sched: seq<nat>, n: nat) returns (d: nat, e: nat)
    requires n >= 1 && !Hears(sched, n)
    ensures d < n && e < n && (!Ran(sched, 0, |sched|, e) || (d != e && !HeardBy(sched, d, e)))
  {
    if !AllRan(sched, |sched|, n) {
      e :| 0 <= e < n && !Ran(sched, 0, |sched|, e);
      d := 0;
    } else {
      d, e :| 0 <= d < n && 0 <= e < n && d != e && !HeardBy(sched, d, e);
    }
  }

  /** Run on this schedule, the world ends with every vault and the snapshot at the join of all of them. */
  ghost predicate Settles(w: World, sched: seq<nat>, clock: seq<Stamp>) {
    Schedule(w, sched) && |clock| == |sched| ==> SettledAt(After(w, sched, clock, |sched|), Total(w))
  }

  /**
   A schedule settles every safe world of `n` devices, on any clocks, exactly when
   every device runs and every other device runs again after that one's first round.
   */
  lemma SettlesExactly(sched: seq<nat>, n: nat)
    requires n >= 1 && forall i :: 0 <= i < |sched| ==> sched[i] < n
    ensures Hears(sched, n) <==>
            forall w: World, clock: seq<Stamp> :: |w.vaults| == n && Coherent(w) && Safe(w) && |clock| == |sched| ==>
                Settles(w, sched, clock)
  {
    if Hears(sched, n) {
      forall w: World, clock: seq<Stamp> | |w.vaults| == n && Coherent(w) && Safe(w) && |clock| == |sched|
        ensures Settles(w, sched, clock)
      {
        HearingSettles(w, sched, clock);
      }
    } else {
      var d, e := Unheard(sched, n);
      var clock: seq<Stamp> := seq(|sched|, i => 0);
      LoneIsSafe(n, e);
      UnheardDoesNotSettle(sched, clock, n, d, e);
      assert !Settles(Lone(n, e), sched, clock);
    }
  }
}
