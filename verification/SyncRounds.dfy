/**
 Whole sync rounds over one shared blob: N devices, one snapshot, one device at a
 time. Says exactly when repeated rounds settle at the join of all vaults, and
 what happens when they do not.
 */
module SyncRounds {
  import opened Records

  datatype World = World(vaults: seq<Vault>, remote: Vault)

  /** The vault a device ends its round with. */
  function Merged(w: World, d: nat, now: Stamp): Vault
    requires d < |w.vaults|
  {
    Merge(w.vaults[d], w.remote, now)
  }

  /** A round publishes only when its vault's fingerprint differs from the published one. */
  predicate Commits(w: World, d: nat, now: Stamp)
    requires d < |w.vaults|
  {
    SignatureOf(Merged(w, d, now)) != SignatureOf(w.remote)
  }

  function Round(w: World, d: nat, now: Stamp): World
    requires d < |w.vaults|
  {
    World(w.vaults[d := Merged(w, d, now)], if Commits(w, d, now) then Merged(w, d, now) else w.remote)
  }

  ghost predicate Schedule(w: World, sched: seq<nat>) {
    forall i :: 0 <= i < |sched| ==> sched[i] < |w.vaults|
  }

  /** The world after the first `n` rounds of a schedule. */
  ghost function After(w: World, sched: seq<nat>, clock: seq<Stamp>, n: nat): (r: World)
    requires n <= |sched| == |clock| && Schedule(w, sched)
    ensures |r.vaults| == |w.vaults|
  {
    if n == 0 then w else Round(After(w, sched, clock, n - 1), sched[n - 1], clock[n - 1])
  }

  // ----- Sources and their join -----

  function Source(w: World, k: nat): Vault
    requires k <= |w.vaults|
  {
    if k == |w.vaults| then w.remote else w.vaults[k]
  }

  ghost predicate Coherent(w: World) {
    forall a, b {:trigger AgreeToTheMilli(Source(w, a), Source(w, b))} ::
      0 <= a <= |w.vaults| && 0 <= b <= |w.vaults| ==> AgreeToTheMilli(Source(w, a), Source(w, b))
  }

  /** The documented merge of the snapshot and the first `n` vaults. */
  ghost function JoinTo(w: World, n: nat): Vault
    requires n <= |w.vaults|
  {
    if n == 0 then w.remote else Join(JoinTo(w, n - 1), w.vaults[n - 1])
  }

  ghost function Total(w: World): Vault { JoinTo(w, |w.vaults|) }

  ghost predicate AllBelow(w: World, c: Vault) {
    && Leq(w.remote, c)
    && forall d {:trigger Leq(w.vaults[d], c)} :: 0 <= d < |w.vaults| ==> Leq(w.vaults[d], c)
  }

  lemma {:induction false} JoinToHasSource(w: World, n: nat, id: Id) returns (k: nat)
    requires n <= |w.vaults| && id in JoinTo(w, n)
    ensures k <= |w.vaults| && id in Source(w, k) && Source(w, k)[id] == JoinTo(w, n)[id]
    ensures k < n || k == |w.vaults|
  {
    if n == 0 {
      k := |w.vaults|;
    } else if Applies(JoinTo(w, n - 1), w.vaults[n - 1], id) || id !in JoinTo(w, n - 1) {
      k := n - 1;
    } else {
      k := JoinToHasSource(w, n - 1, id);
    }
  }

  lemma JoinToAgrees(w: World, n: nat, b: nat)
    requires Coherent(w) && n <= |w.vaults| && b <= |w.vaults|
    ensures AgreeToTheMilli(JoinTo(w, n), Source(w, b)) && AgreeToTheMilli(Source(w, b), JoinTo(w, n))
    ensures Agree(JoinTo(w, n), Source(w, b))
  {
    forall id | id in JoinTo(w, n) && id in Source(w, b)
                && JoinTo(w, n)[id].stamp / NANOS_PER_MILLI == Source(w, b)[id].stamp / NANOS_PER_MILLI
      ensures JoinTo(w, n)[id] == Source(w, b)[id]
    {
      var k := JoinToHasSource(w, n, id);
      assert AgreeToTheMilli(Source(w, k), Source(w, b));
    }
  }

  lemma {:induction false} JoinToIsUpperBound(w: World, n: nat)
    requires Coherent(w) && n <= |w.vaults|
    ensures Leq(w.remote, JoinTo(w, n))
    ensures forall d :: 0 <= d < n ==> Leq(w.vaults[d], JoinTo(w, n))
  {
    if n > 0 {
      JoinToIsUpperBound(w, n - 1);
      JoinToAgrees(w, n - 1, n - 1);
      JoinIsUpperBound(JoinTo(w, n - 1), w.vaults[n - 1]);
      LeqTransitive(w.remote, JoinTo(w, n - 1), JoinTo(w, n));
      forall d | 0 <= d < n
        ensures Leq(w.vaults[d], JoinTo(w, n))
      {
        if d < n - 1 {
          LeqTransitive(w.vaults[d], JoinTo(w, n - 1), JoinTo(w, n));
        }
      }
    }
  }

  lemma {:induction false} JoinToIsLeast(w: World, n: nat, c: Vault)
    requires n <= |w.vaults| && AllBelow(w, c)
    ensures Leq(JoinTo(w, n), c)
  {
    if n > 0 {
      JoinToIsLeast(w, n - 1, c);
      JoinIsLeast(JoinTo(w, n - 1), w.vaults[n - 1], c);
    }
  }

  // ----- Worlds in which no deletion is left to apply -----

  /** What device `e` would publish if it ran next, by the documented merge. */
  function Next(w: World, e: nat): Vault
    requires e < |w.vaults|
  {
    Join(w.vaults[e], w.remote)
  }

  predicate Exposed(w: World, e: nat, id: Id)
    requires e < |w.vaults|
  {
    id in Next(w, e) && Next(w, e)[id].Tombstone?
  }

  /**
   Every deletion that any device would publish next is already held, at that
   stamp or a later one, by every device.
   */
  ghost predicate Safe(w: World) {
    forall d, e, id :: 0 <= d < |w.vaults| && 0 <= e < |w.vaults| && Exposed(w, e, id)
      ==> id in w.vaults[d] && w.vaults[d][id].stamp >= Next(w, e)[id].stamp
  }

  lemma AgreesWithNext(w: World, d: nat, b: nat)
    requires Coherent(w) && d < |w.vaults| && b <= |w.vaults|
    ensures AgreeToTheMilli(Next(w, d), Source(w, b)) && AgreeToTheMilli(Source(w, b), Next(w, d))
  {
    assert AgreeToTheMilli(Source(w, d), Source(w, b));
    assert AgreeToTheMilli(Source(w, |w.vaults|), Source(w, b));
  }

  /** In a safe world a round is the documented merge, published. */
  lemma SafeRound(w: World, d: nat, now: Stamp)
    requires Coherent(w) && Safe(w) && d < |w.vaults|
    ensures Round(w, d, now) == World(w.vaults[d := Next(w, d)], Next(w, d))
  {
    forall id | Buries(w.vaults[d], w.remote, id)
      ensures false
    {
      assert Exposed(w, d, id);
    }
    MergeIsJoin(w.vaults[d], w.remote, now);
    AgreesWithNext(w, d, |w.vaults|);
    EqualSignaturesEqualVaults(Next(w, d), w.remote);
  }

  lemma SafeRoundIsCoherent(w: World, d: nat, now: Stamp)
    requires Coherent(w) && Safe(w) && d < |w.vaults|
    ensures Coherent(Round(w, d, now))
  {
    SafeRound(w, d, now);
    var r := Round(w, d, now);
    forall a, b | 0 <= a <= |r.vaults| && 0 <= b <= |r.vaults|
      ensures AgreeToTheMilli(Source(r, a), Source(r, b))
    {
      AgreesWithNext(w, d, a);
      AgreesWithNext(w, d, b);
    }
  }

  lemma SafeRoundIsSafe(w: World, d: nat, now: Stamp)
    requires Coherent(w) && Safe(w) && d < |w.vaults|
    ensures Safe(Round(w, d, now))
  {
    SafeRound(w, d, now);
    var r := Round(w, d, now);
    forall c, e, id | 0 <= c < |r.vaults| && 0 <= e < |r.vaults| && Exposed(r, e, id)
      ensures id in r.vaults[c] && r.vaults[c][id].stamp >= Next(r, e)[id].stamp
    {
      var source := if Next(w, d).Keys == {} || id !in Next(w, d) || Next(r, e)[id] != Next(w, d)[id] then e else d;
      assert Exposed(w, source, id) && Next(w, source)[id] == Next(r, e)[id];
    }
  }

  /** One safe round raises its own vault and the snapshot, and nothing past a common bound. */
  lemma SafeRoundClimbs(w: World, d: nat, now: Stamp, c: Vault)
    requires Coherent(w) && Safe(w) && d < |w.vaults| && AllBelow(w, c)
    ensures var r := Round(w, d, now);
            AllBelow(r, c) && Leq(w.vaults[d], r.remote) && Leq(w.remote, r.remote) && r.vaults[d] == r.remote
  {
    SafeRound(w, d, now);
    assert AgreeToTheMilli(Source(w, d), Source(w, |w.vaults|));
    JoinIsUpperBound(w.vaults[d], w.remote);
    JoinIsLeast(w.vaults[d], w.remote, c);
  }

  /** What `n` rounds of a schedule keep, from a safe world, under the bound `c`. */
  lemma {:induction false} SafeRun(w: World, sched: seq<nat>, clock: seq<Stamp>, n: nat, c: Vault)
    requires Coherent(w) && Safe(w) && AllBelow(w, c)
    requires n <= |sched| == |clock| && Schedule(w, sched)
    ensures var r := After(w, sched, clock, n);
            Coherent(r) && Safe(r) && AllBelow(r, c) && Leq(w.remote, r.remote)
  {
    if n > 0 {
      SafeRun(w, sched, clock, n - 1, c);
      var r := After(w, sched, clock, n - 1);
      SafeRoundIsCoherent(r, sched[n - 1], clock[n - 1]);
      SafeRoundIsSafe(r, sched[n - 1], clock[n - 1]);
      SafeRoundClimbs(r, sched[n - 1], clock[n - 1], c);
      LeqTransitive(w.remote, r.remote, After(w, sched, clock, n).remote);
    }
  }

  /** Device `d` has a round among those numbered `lo` up to `hi`. */
  ghost predicate Ran(sched: seq<nat>, lo: nat, hi: nat, d: nat)
    requires hi <= |sched|
  {
    exists i :: lo <= i < hi && sched[i] == d
  }

  /** Round `m` publishes a snapshot above the last one and its device's vault, at most `top`; that device keeps it. */
  ghost predicate Climbs(w: World, sched: seq<nat>, clock: seq<Stamp>, m: nat, top: Vault)
    requires m < |sched| == |clock| && Schedule(w, sched)
  {
    var r, next := After(w, sched, clock, m), After(w, sched, clock, m + 1);
    && next.vaults == r.vaults[sched[m] := next.remote]
    && Leq(r.vaults[sched[m]], next.remote)
    && Leq(r.remote, next.remote)
    && Leq(next.remote, top)
  }

  lemma SafeStepClimbs(w: World, sched: seq<nat>, clock: seq<Stamp>, m: nat, top: Vault)
    requires Coherent(w) && Safe(w) && AllBelow(w, top)
    requires m < |sched| == |clock| && Schedule(w, sched)
    ensures Climbs(w, sched, clock, m, top)
  {
    SafeRun(w, sched, clock, m, top);
    SafeRound(After(w, sched, clock, m), sched[m], clock[m]);
    SafeRoundClimbs(After(w, sched, clock, m), sched[m], clock[m], top);
  }

  /** A device's vault is published by its first round and stays published. */
  lemma {:induction false} Published(w: World, sched: seq<nat>, clock: seq<Stamp>, n: nat, d: nat, top: Vault)
    requires n <= |sched| == |clock| && Schedule(w, sched) && d < |w.vaults|
    requires forall m :: 0 <= m < n ==> Climbs(w, sched, clock, m, top)
    ensures var r := After(w, sched, clock, n);
            if Ran(sched, 0, n, d) then Leq(w.vaults[d], r.remote) else r.vaults[d] == w.vaults[d]
  {
    if n > 0 {
      Published(w, sched, clock, n - 1, d, top);
      assert Climbs(w, sched, clock, n - 1, top);
      if Ran(sched, 0, n - 1, d) {
        LeqTransitive(w.vaults[d], After(w, sched, clock, n - 1).remote, After(w, sched, clock, n).remote);
      }
      assert Ran(sched, 0, n, d) <==> Ran(sched, 0, n - 1, d) || sched[n - 1] == d;
    }
  }

  /** A snapshot at the top stays there, and a device that has run since is there too. */
  lemma {:induction false} Absorbed(w: World, sched: seq<nat>, clock: seq<Stamp>, mid: nat, n: nat, d: nat, top: Vault)
    requires mid <= n <= |sched| == |clock| && Schedule(w, sched) && d < |w.vaults|
    requires forall m :: mid <= m < n ==> Climbs(w, sched, clock, m, top)
    requires After(w, sched, clock, mid).remote == top
    ensures After(w, sched, clock, n).remote == top
    ensures Ran(sched, mid, n, d) ==> After(w, sched, clock, n).vaults[d] == top
    decreases n
  {
    if n > mid {
      Absorbed(w, sched, clock, mid, n - 1, d, top);
      assert Climbs(w, sched, clock, n - 1, top);
      LeqAntisymmetric(After(w, sched, clock, n).remote, top);
      assert Ran(sched, mid, n, d) <==> Ran(sched, mid, n - 1, d) || sched[n - 1] == d;
    }
  }

  ghost predicate SettledAt(w: World, top: Vault) {
    && w.remote == top
    && forall d :: 0 <= d < |w.vaults| ==> w.vaults[d] == top
  }

  /** Every device runs at least once before `mid` and at least once after it. */
  ghost predicate TwoSweeps(w: World, sched: seq<nat>, mid: nat) {
    && Schedule(w, sched)
    && mid <= |sched|
    && forall d :: 0 <= d < |w.vaults| ==> Ran(sched, 0, mid, d) && Ran(sched, mid, |sched|, d)
  }

  /** Once every device has run, the snapshot is the join of all vaults. */
  lemma HalfwayAtTop(w: World, sched: seq<nat>, clock: seq<Stamp>, mid: nat)
    requires mid <= |sched| == |clock| && Schedule(w, sched)
    requires forall m :: 0 <= m < mid ==> Climbs(w, sched, clock, m, Total(w))
    requires forall d :: 0 <= d < |w.vaults| ==> Ran(sched, 0, mid, d)
    requires Leq(w.remote, After(w, sched, clock, mid).remote)
    requires Leq(After(w, sched, clock, mid).remote, Total(w))
    ensures After(w, sched, clock, mid).remote == Total(w)
  {
    var half := After(w, sched, clock, mid);
    forall d | 0 <= d < |w.vaults|
      ensures Leq(w.vaults[d], half.remote)
    {
      Published(w, sched, clock, mid, d, Total(w));
    }
    JoinToIsLeast(w, |w.vaults|, half.remote);
    LeqAntisymmetric(half.remote, Total(w));
  }

  lemma SafeRunClimbs(w: World, sched: seq<nat>, clock: seq<Stamp>, mid: nat)
    requires Coherent(w) && Safe(w)
    requires mid <= |sched| == |clock| && Schedule(w, sched)
    ensures forall m :: 0 <= m < |sched| ==> Climbs(w, sched, clock, m, Total(w))
    ensures Leq(w.remote, After(w, sched, clock, mid).remote)
    ensures Leq(After(w, sched, clock, mid).remote, Total(w))
  {
    JoinToIsUpperBound(w, |w.vaults|);
    forall m | 0 <= m < |sched|
      ensures Climbs(w, sched, clock, m, Total(w))
    {
      SafeStepClimbs(w, sched, clock, m, Total(w));
    }
    SafeRun(w, sched, clock, mid, Total(w));
  }

  /** Climbing rounds that sweep the devices twice end at the join. */
  lemma ClimbingSweepsSettle(w: World, sched: seq<nat>, clock: seq<Stamp>, mid: nat)
    requires w.vaults != [] && TwoSweeps(w, sched, mid) && |clock| == |sched|
    requires forall m :: 0 <= m < |sched| ==> Climbs(w, sched, clock, m, Total(w))
    requires Leq(w.remote, After(w, sched, clock, mid).remote)
    requires Leq(After(w, sched, clock, mid).remote, Total(w))
    ensures SettledAt(After(w, sched, clock, |sched|), Total(w))
  {
    HalfwayAtTop(w, sched, clock, mid);
    forall d | 0 <= d < |w.vaults|
      ensures After(w, sched, clock, |sched|).vaults[d] == Total(w)
      ensures After(w, sched, clock, |sched|).remote == Total(w)
    {
      Absorbed(w, sched, clock, mid, |sched|, d, Total(w));
    }
    assert After(w, sched, clock, |sched|).vaults[0] == Total(w);
  }

  /** Two sweeps over a safe world leave every vault and the snapshot at the join of all of them. */
  lemma SafeConverges(w: World, sched: seq<nat>, clock: seq<Stamp>, mid: nat)
    requires Coherent(w) && Safe(w) && w.vaults != []
    requires TwoSweeps(w, sched, mid) && |clock| == |sched|
    ensures SettledAt(After(w, sched, clock, |sched|), Total(w))
  {
    SafeRunClimbs(w, sched, clock, mid);
    ClimbingSweepsSettle(w, sched, clock, mid);
  }

  /** A settled world stays as it is: no later round changes anything or commits. */
  lemma SettledIsQuiet(w: World, top: Vault, d: nat, now: Stamp)
    requires SettledAt(w, top) && d < |w.vaults|
    ensures Round(w, d, now) == w && !Commits(w, d, now)
  {
    assert Merge(top, top, now) == top;
    assert w.vaults[d := top] == w.vaults;
  }
}
