/**
 One device's registration: a record and a pinned key, wiped together by the
 owner or by an alarm set again on every accepted register.
 */
module DeviceRegistry {
  import opened Options

  /** Five minutes, in milliseconds. */
  const TTL_MS: nat := 300 * 1000

  type Key = seq<char>
  type Address = nat

  datatype Pin = Pin(record: Address, key: Key)

  datatype Entry = Entry(record: Option<Address>, key: Option<Key>, alarm: Option<nat>)

  const Wiped := Entry(None, None, None)

  datatype Event =
    | Register(key: Key, record: Address, now: nat)
    | Unregister(key: Key, now: nat)
    | Alarm(now: nat)

  datatype Answer = Done | Mismatch

  /** A stored key that is not the empty string refuses every other key. */
  predicate Refuses(e: Entry, key: Key) { e.key.Some? && e.key.value != [] && e.key.value != key }

  /** An alarm goes off once, at its time or late. */
  predicate Possible(e: Entry, ev: Event) {
    ev.Alarm? ==> e.alarm.Some? && e.alarm.value <= ev.now
  }

  function Next(e: Entry, ev: Event): Entry {
    if !Possible(e, ev) then e
    else match ev
      case Register(key, record, now) =>
        if Refuses(e, key) then e else Entry(Some(record), Some(key), Some(now + TTL_MS))
      case Unregister(key, _) => if Refuses(e, key) then e else Wiped
      case Alarm(_) => Wiped
  }

  function Run(e: Entry, evs: seq<Event>, n: nat): Entry
    requires n <= |evs|
  {
    if n == 0 then e else Next(Run(e, evs, n - 1), evs[n - 1])
  }

  // ----- Runs -----

  /** Every key presented has passed the front door: it is not empty. */
  predicate KeysGiven(evs: seq<Event>) {
    forall m :: 0 <= m < |evs| ==> (evs[m].Register? || evs[m].Unregister?) ==> evs[m].key != []
  }

  /** The register at `m` was accepted. */
  predicate Accepted(evs: seq<Event>, m: nat)
    requires m < |evs|
  {
    evs[m].Register? && !Refuses(Run(Wiped, evs, m), evs[m].key)
  }

  /** The event at `m` wiped the entry. */
  predicate Wipes(evs: seq<Event>, m: nat)
    requires m < |evs|
  {
    Possible(Run(Wiped, evs, m), evs[m])
    && (evs[m].Alarm? || (evs[m].Unregister? && !Refuses(Run(Wiped, evs, m), evs[m].key)))
  }

  /** What a reader of the log would say is registered: the last accepted register, if nothing wiped it since. */
  function LastStanding(evs: seq<Event>, n: nat): (m: Option<nat>)
    requires n <= |evs|
    ensures m.Some? ==> m.value < n && Accepted(evs, m.value) && forall j :: m.value < j < n ==>
            !Wipes(evs, j) && !Accepted(evs, j)
    ensures m.None? ==> forall j :: 0 <= j < n && Accepted(evs, j) ==> exists w :: j < w < n && Wipes(evs, w)
  {
    if n == 0 then None
    else if Accepted(evs, n - 1) then Some(n - 1)
    else if Wipes(evs, n - 1) then None
    else LastStanding(evs, n - 1)
  }

  /**
   Over any run, what is stored is exactly the last accepted register still
   standing - record, key, and an alarm 300 seconds after it - or nothing at all.
   */
  lemma {:induction false} StorageIsLastStanding(evs: seq<Event>, n: nat)
    requires n <= |evs|
    ensures var e := Run(Wiped, evs, n);
            match LastStanding(evs, n)
            case None => e == Wiped
            case Some(m) => e == Entry(Some(evs[m].record), Some(evs[m].key), Some(evs[m].now + 300000))
  {
    if n > 0 {
      StorageIsLastStanding(evs, n - 1);
    }
  }

  /** Between an accepted register and the next wipe no other key is accepted. */
  lemma {:induction false} PinHolds(evs: seq<Event>, i: nat, n: nat)
    requires KeysGiven(evs) && i < n <= |evs| && Accepted(evs, i)
    requires forall w :: i < w < n ==> !Wipes(evs, w)
    ensures Run(Wiped, evs, n).key == Some(evs[i].key)
    ensures forall j :: i < j < n && Accepted(evs, j) ==> evs[j].key == evs[i].key
  {
    if n > i + 1 {
      PinHolds(evs, i, n - 1);
      assert !Wipes(evs, n - 1) && evs[i].key != [];
    }
  }

  /** At each event some register under this key is less than the time to live old. */
  ghost predicate Refreshed(evs: seq<Event>, i: nat, n: nat, key: Key)
    requires n <= |evs|
  {
    forall j {:trigger FreshAt(evs, i, j, key)} :: i < j < n ==> FreshAt(evs, i, j, key)
  }

  ghost predicate FreshAt(evs: seq<Event>, i: nat, j: nat, key: Key)
    requires j < |evs|
  {
    exists m :: i <= m < j && evs[m].Register? && evs[m].key == key && evs[j].now < evs[m].now + TTL_MS
  }

  predicate ClocksForward(evs: seq<Event>, i: nat, n: nat)
    requires n <= |evs|
  {
    forall a, b :: i <= a <= b < n ==> evs[a].now <= evs[b].now
  }

  /** A register still standing is as late as any accepted one that nothing wiped since. */
  lemma StandingIsLatest(evs: seq<Event>, m: nat, n: nat)
    requires m < n <= |evs| && Accepted(evs, m) && forall w :: m < w < n ==> !Wipes(evs, w)
    ensures LastStanding(evs, n).Some? && m <= LastStanding(evs, n).value
  {}

  /** Since its register at `i` the owner has not been displaced: nothing wiped, its key pinned, no other accepted. */
  ghost predicate Held(evs: seq<Event>, i: nat, n: nat)
    requires i < n <= |evs| && evs[i].Register?
  {
    && (forall w :: i < w < n ==> !Wipes(evs, w))
    && Run(Wiped, evs, n).key == Some(evs[i].key)
    && (forall j :: i < j < n && evs[j].Register? ==> (Accepted(evs, j) <==> evs[j].key == evs[i].key))
  }

  /** While it is held, the alarm is at least the time to live after each of the owner's registers. */
  lemma AlarmIsLater(evs: seq<Event>, i: nat, m: nat, n: nat)
    requires i <= m < n <= |evs| && Accepted(evs, i) && Held(evs, i, n) && ClocksForward(evs, i, n)
    requires evs[m].Register? && evs[m].key == evs[i].key
    ensures Run(Wiped, evs, n).alarm.Some? && Run(Wiped, evs, n).alarm.value >= evs[m].now + TTL_MS
  {
    StandingIsLatest(evs, m, n);
    StorageIsLastStanding(evs, n);
  }

  lemma HeldOn(evs: seq<Event>, i: nat, n: nat)
    requires i < n < |evs| && evs[i].Register? && Held(evs, i, n) && evs[i].key != []
    requires Run(Wiped, evs, n).alarm.Some? && evs[n].now < Run(Wiped, evs, n).alarm.value
    requires evs[n].Unregister? ==> evs[n].key != evs[i].key
    ensures Held(evs, i, n + 1)
  {
    assert !Wipes(evs, n);
  }

  /** An owner that registers again within every 300 seconds, and does not unregister, is never displaced. */
  lemma {:induction false} RefreshedOwnerKeepsTheName(evs: seq<Event>, i: nat, n: nat)
    requires KeysGiven(evs) && i < n <= |evs| && Accepted(evs, i)
    requires Refreshed(evs, i, n, evs[i].key) && ClocksForward(evs, i, n)
    requires forall j :: i < j < n && evs[j].Unregister? ==> evs[j].key != evs[i].key
    ensures Held(evs, i, n)
  {
    if n > i + 1 {
      RefreshedOwnerKeepsTheName(evs, i, n - 1);
      assert FreshAt(evs, i, n - 1, evs[i].key);
      var m :| i <= m < n - 1 && evs[m].Register? && evs[m].key == evs[i].key && evs[n - 1].now < evs[m].now + TTL_MS;
      AlarmIsLater(evs, i, m, n - 1);
      HeldOn(evs, i, n - 1);
    }
  }

  // ----- The handlers, on the object's storage -----

  lemma {:induction false} RunPrefix(evs: seq<Event>, ev: Event, n: nat)
    requires n <= |evs|
    ensures Run(Wiped, evs + [ev], n) == Run(Wiped, evs, n)
  {
    if n > 0 {
      RunPrefix(evs, ev, n - 1);
      assert (evs + [ev])[n - 1] == evs[n - 1];
    }
  }

  class Registry {
    var record: Option<Address>
    var publicKey: Option<Key>
    var alarm: Option<nat>
    ghost var log: seq<Event>

    ghost predicate Valid()
      reads this
    {
      Entry(record, publicKey, alarm) == Run(Wiped, log, |log|)
    }

    constructor ()
      ensures Valid() && log == []
    {
      record, publicKey, alarm, log := None, None, None, [];
    }

    ghost method Record(ev: Event)
      requires Entry(record, publicKey, alarm) == Next(Run(Wiped, log, |log|), ev)
      modifies this`log
      ensures Valid() && log == old(log) + [ev]
    {
      RunPrefix(log, ev, |log|);
      log := log + [ev];
    }

    /** A register is accepted exactly when no other key has a register standing. */
    method HandleRegister(key: Key, address: Address, now: nat) returns (answer: Answer)
      requires Valid() && KeysGiven(log)
      modifies this
      ensures Valid() && log == old(log) + [Register(key, address, now)]
      ensures answer.Mismatch? <==> LastStanding(old(log), |old(log)|).Some?
                                    && old(log)[LastStanding(old(log), |old(log)|).value].key != key
    {
      StorageIsLastStanding(log, |log|);
      if publicKey.Some? && publicKey.value != [] && publicKey.value != key {
        Record(Register(key, address, now));
        return Mismatch;
      }
      record, publicKey := Some(address), Some(key);
      alarm := Some(now + TTL_MS);
      Record(Register(key, address, now));
      answer := Done;
    }

    /** A lookup finds the address of the last accepted register not wiped since, and nothing otherwise. */
    method HandleLookup() returns (found: Option<Address>)
      requires Valid()
      ensures found == match LastStanding(log, |log|)
                       case None => None
                       case Some(m) => Some(log[m].record)
    {
      StorageIsLastStanding(log, |log|);
      found := record;
    }

    /** After an accepted unregister nothing stands. */
    method HandleUnregister(key: Key, now: nat) returns (answer: Answer)
      requires Valid() && KeysGiven(log)
      modifies this
      ensures Valid() && log == old(log) + [Unregister(key, now)]
      ensures answer.Mismatch? <==> LastStanding(old(log), |old(log)|).Some?
                                    && old(log)[LastStanding(old(log), |old(log)|).value].key != key
      ensures answer.Done? ==> record == None && publicKey == None && alarm == None
    {
      StorageIsLastStanding(log, |log|);
      if publicKey.Some? && publicKey.value != [] && publicKey.value != key {
        Record(Unregister(key, now));
        return Mismatch;
      }
      record, publicKey := None, None;
      alarm := None;
      Record(Unregister(key, now));
      answer := Done;
    }

    /** The alarm goes off 300 seconds or more after the last accepted register, and wipes it. */
    method HandleAlarm(now: nat)
      requires Valid() && alarm.Some? && alarm.value <= now
      modifies this
      ensures Valid() && log == old(log) + [Alarm(now)]
      ensures LastStanding(old(log), |old(log)|).Some?
              && old(log)[LastStanding(old(log), |old(log)|).value].now + TTL_MS <= now
      ensures record == None && publicKey == None && alarm == None
    {
      StorageIsLastStanding(log, |log|);
      record, publicKey, alarm := None, None, None;
      Record(Alarm(now));
    }
  }
}
