/**
 Vault records, the merge every sync transport shares, and the order it is
 supposed to climb.

 The documented merge is last-writer-wins with tombstones (`Join`). The merge the
 code runs (`Merge`) differs in one place: applying a remote deletion goes through
 the ordinary local delete, which stamps the new tombstone with the local clock
 instead of the deletion's own time.
 */
module Records {
  /** Entity kind and uuid together. */
  type Id = nat

  /** Nanoseconds. */
  type Stamp = nat

  const NANOS_PER_MILLI: nat := 1000000

  datatype Entry = Live(stamp: Stamp, content: nat) | Tombstone(stamp: Stamp)

  /** A vault as its manifest sees it; a full snapshot carries the same entries. */
  type Vault = map<Id, Entry>

  // ----- The last-writer-wins order -----

  predicate EntryLeq(a: Entry, b: Entry) {
    a.stamp < b.stamp || a == b
  }

  predicate Leq(a: Vault, b: Vault) {
    forall id :: id in a ==> id in b && EntryLeq(a[id], b[id])
  }

  /** One id and one stamp never name two different contents. */
  predicate Agree(a: Vault, b: Vault) {
    forall id :: id in a && id in b && a[id].stamp == b[id].stamp ==> a[id] == b[id]
  }

  /** Whether record `id` of `snapshot` is strictly newer than what the vault holds. */
  predicate Applies(vault: Vault, snapshot: Vault, id: Id) {
    id in snapshot && (id in vault ==> vault[id].stamp < snapshot[id].stamp)
  }

  /** What a device's vault holds after merging a snapshot at local time `now`. */
  function Merge(vault: Vault, snapshot: Vault, now: Stamp): Vault {
    map id | id in vault.Keys + snapshot.Keys ::
      if !Applies(vault, snapshot, id) then vault[id]
      else if snapshot[id].Tombstone? then Tombstone(now)
      else snapshot[id]
  }

  /** The merge as documented: the strictly newer entry wins, stamp and all. */
  function Join(a: Vault, b: Vault): Vault {
    map id | id in a.Keys + b.Keys :: if Applies(a, b, id) then b[id] else a[id]
  }

  // ----- The documented merge is a least upper bound -----

  lemma LeqTransitive(a: Vault, b: Vault, c: Vault)
    requires Leq(a, b) && Leq(b, c)
    ensures Leq(a, c)
  {}

  lemma LeqAntisymmetric(a: Vault, b: Vault)
    requires Leq(a, b) && Leq(b, a)
    ensures a == b
  {
    forall id | id in a
      ensures id in b && a[id] == b[id]
    {}
  }

  lemma JoinIsUpperBound(a: Vault, b: Vault)
    requires Agree(a, b)
    ensures Leq(a, Join(a, b)) && Leq(b, Join(a, b))
  {}

  lemma JoinIsLeast(a: Vault, b: Vault, c: Vault)
    requires Leq(a, c) && Leq(b, c)
    ensures Leq(Join(a, b), c)
  {}

  /** The order in which two devices' vaults are merged does not matter. */
  lemma JoinCommutes(a: Vault, b: Vault)
    requires Agree(a, b)
    ensures Join(a, b) == Join(b, a)
  {}

  lemma JoinAssociates(a: Vault, b: Vault, c: Vault)
    ensures Join(Join(a, b), c) == Join(a, Join(b, c))
  {
    var l, r := Join(Join(a, b), c), Join(a, Join(b, c));
    assert l.Keys == r.Keys;
    forall id | id in l
      ensures l[id] == r[id]
    {}
  }

  // ----- Where the merge that runs departs from it -----

  /** Record `id` is a deletion this merge would act on. */
  predicate Buries(vault: Vault, snapshot: Vault, id: Id) {
    Applies(vault, snapshot, id) && snapshot[id].Tombstone?
  }

  /** The merge is the documented one exactly when every deletion it acts on bears the local time. */
  lemma MergeIsJoin(vault: Vault, snapshot: Vault, now: Stamp)
    ensures Merge(vault, snapshot, now) == Join(vault, snapshot)
       <==> forall id :: Buries(vault, snapshot, id) ==> snapshot[id].stamp == now
  {
    var m, j := Merge(vault, snapshot, now), Join(vault, snapshot);
    assert m.Keys == j.Keys;
    if m == j {
      forall id | Buries(vault, snapshot, id)
        ensures snapshot[id].stamp == now
      {
        assert m[id] == j[id];
      }
    } else {
      var id :| id in m && m[id] != j[id];
      assert Buries(vault, snapshot, id);
    }
  }

  /** No deletion this merge acts on is stamped in the local clock's future. */
  ghost predicate ClockAhead(vault: Vault, snapshot: Vault, now: Stamp) {
    forall id :: Buries(vault, snapshot, id) ==> snapshot[id].stamp <= now
  }

  /** The merged vault is at or above the snapshot exactly when the clock is not behind it. */
  lemma MergeDominates(vault: Vault, snapshot: Vault, now: Stamp)
    requires Agree(vault, snapshot)
    ensures Leq(snapshot, Merge(vault, snapshot, now)) <==> ClockAhead(vault, snapshot, now)
    ensures ClockAhead(vault, snapshot, now) ==> Leq(vault, Merge(vault, snapshot, now))
  {
    var m := Merge(vault, snapshot, now);
    if Leq(snapshot, m) {
      forall id | Buries(vault, snapshot, id)
        ensures snapshot[id].stamp <= now
      {
        assert EntryLeq(snapshot[id], m[id]);
      }
    }
  }

  // ----- The signature -----

  type Signature = map<Id, (nat, bool)>

  /** What the fingerprint hashes: per id, the stamp in milliseconds and whether it is a deletion. */
  function SignatureOf(v: Vault): Signature {
    map id | id in v :: (v[id].stamp / NANOS_PER_MILLI, v[id].Tombstone?)
  }

  predicate SignatureLeq(a: Signature, b: Signature) {
    forall id :: id in a ==> id in b && a[id].0 <= b[id].0
  }

  lemma LeqSigns(a: Vault, b: Vault)
    requires Leq(a, b)
    ensures SignatureLeq(SignatureOf(a), SignatureOf(b))
  {
    forall id | id in a
      ensures id in b && a[id].stamp / NANOS_PER_MILLI <= b[id].stamp / NANOS_PER_MILLI
    {
      MillisMonotone(a[id].stamp, b[id].stamp);
    }
  }

  lemma MillisMonotone(a: Stamp, b: Stamp)
    ensures a <= b ==> a / NANOS_PER_MILLI <= b / NANOS_PER_MILLI
  {}

  /** What two vaults with one fingerprint share: their records, each to the millisecond, deleted or not. */
  lemma SignaturesAgreeExactly(a: Vault, b: Vault)
    ensures SignatureOf(a) == SignatureOf(b) <==>
            && a.Keys == b.Keys
            && forall id :: id in a && id in b ==>
                 a[id].stamp / 1000000 == b[id].stamp / 1000000 && (a[id].Tombstone? <==> b[id].Tombstone?)
  {
    var x, y := SignatureOf(a), SignatureOf(b);
    assert a.Keys == x.Keys && b.Keys == y.Keys;
    if x == y {
      forall id | id in a && id in b
        ensures a[id].stamp / 1000000 == b[id].stamp / 1000000 && (a[id].Tombstone? <==> b[id].Tombstone?)
      {
        assert x[id] == y[id];
      }
    }
  }

  /** Two entries of one id that fall in one millisecond are the same entry. */
  predicate AgreeToTheMilli(a: Vault, b: Vault) {
    forall id :: id in a && id in b && a[id].stamp / NANOS_PER_MILLI == b[id].stamp / NANOS_PER_MILLI ==> a[id] == b[id]
  }

  /** Equal fingerprints mean equal vaults exactly under that reading. */
  lemma EqualSignaturesEqualVaults(a: Vault, b: Vault)
    ensures a == b <==> SignatureOf(a) == SignatureOf(b) && AgreeToTheMilli(a, b)
  {
    if SignatureOf(a) == SignatureOf(b) && AgreeToTheMilli(a, b) {
      assert a.Keys == SignatureOf(a).Keys == SignatureOf(b).Keys == b.Keys;
      forall id | id in a
        ensures a[id] == b[id]
      {
        assert SignatureOf(a)[id] == SignatureOf(b)[id];
      }
    }
  }

  /** Without it they do not: two edits of one record inside one millisecond share a fingerprint. */
  lemma SubMillisecondEditsLookAlike(id: Id, milli: nat, x: nat, y: nat)
    ensures var a: Vault := map[id := Live(milli * NANOS_PER_MILLI, x)];
            var b: Vault := map[id := Live(milli * NANOS_PER_MILLI + 1, y)];
            SignatureOf(a) == SignatureOf(b) && a != b && Join(a, b) == b
  {
    var a: Vault := map[id := Live(milli * NANOS_PER_MILLI, x)];
    var b: Vault := map[id := Live(milli * NANOS_PER_MILLI + 1, y)];
    assert (milli * NANOS_PER_MILLI) / NANOS_PER_MILLI == milli;
    assert (milli * NANOS_PER_MILLI + 1) / NANOS_PER_MILLI == milli;
    assert a[id] != b[id];
    assert SignatureOf(a).Keys == {id} && SignatureOf(b).Keys == {id};
    assert SignatureOf(a)[id] == SignatureOf(b)[id];
    assert Join(a, b).Keys == {id} && Applies(a, b, id);
  }

  // ----- The record loop -----

  datatype Record = Record(id: Id, entry: Entry)

  predicate DistinctIds(records: seq<Record>) {
    forall i, j :: 0 <= i < j < |records| ==> records[i].id != records[j].id
  }

  /** The first `n` records, keyed by id. */
  function ByIds(records: seq<Record>, n: nat): (v: Vault)
    requires n <= |records|
    ensures forall id :: id in v ==> exists i :: 0 <= i < n && records[i].id == id
  {
    if n == 0 then map[] else ByIds(records, n - 1)[records[n - 1].id := records[n - 1].entry]
  }

  /** With distinct ids the keyed view holds exactly the listed records. */
  lemma {:induction false} ByIdsHolds(records: seq<Record>, n: nat, i: nat)
    requires i < n <= |records| && DistinctIds(records)
    ensures records[i].id in ByIds(records, n) && ByIds(records, n)[records[i].id] == records[i].entry
  {
    if i < n - 1 {
      ByIdsHolds(records, n - 1, i);
      assert records[i].id != records[n - 1].id;
    }
  }

  lemma MergeOneMore(vault: Vault, before: Vault, id: Id, entry: Entry, now: Stamp)
    requires id !in before
    ensures Merge(vault, before[id := entry], now)
         == if id in vault && entry.stamp <= vault[id].stamp then Merge(vault, before, now)
            else Merge(vault, before, now)[id := if entry.Tombstone? then Tombstone(now) else entry]
  {
    var after := before[id := entry];
    var m, n := Merge(vault, before, now), Merge(vault, after, now);
    assert forall k :: k != id ==> (Applies(vault, before, k) <==> Applies(vault, after, k));
    assert n.Keys == m.Keys + {id};
  }

  /**
   Merge a decoded snapshot into the vault, record by record. Stamps are compared
   against the vault as it was before the batch; a deletion goes through the
   local delete, which writes its own tombstone at `now`.
   */
  method ApplyRecords(vault: Vault, records: seq<Record>, now: Stamp) returns (merged: Vault)
    requires DistinctIds(records)
    ensures merged == Merge(vault, ByIds(records, |records|), now)
  {
    merged := vault;
    for i := 0 to |records|
      invariant merged == Merge(vault, ByIds(records, i), now)
    {
      var record := records[i];
      MergeOneMore(vault, ByIds(records, i), record.id, record.entry, now);
      if record.id in vault && record.entry.stamp <= vault[record.id].stamp {
        continue;
      }
      if record.entry.Tombstone? {
        merged := merged[record.id := Tombstone(now)];
      } else {
        merged := merged[record.id := record.entry];
      }
    }
  }
}
