/**
 What a content search scans: of the recordings listed, exactly the ones no cheaper
 tier has answered, in their order, each once.
 */
module ScanCoverage {
  import opened Options
  import opened ScanPump

  // ----- The recordings set out to scan -----

  /** Where a value of a list of distinct values stands. */
  function Place(refs: seq<Id>, x: Id): (i: nat)
    requires x in refs
    ensures i < |refs| && refs[i] == x
  {
    if refs[0] == x then 0 else 1 + Place(refs[1..], x)
  }

  predicate InOrderOf(part: seq<Id>, refs: seq<Id>) {
    && (forall i :: 0 <= i < |part| ==> part[i] in refs)
    && (forall i, j :: 0 <= i < j < |part| ==> Place(refs, part[i]) < Place(refs, part[j]))
  }

  function Unanswered(refs: seq<Id>, answered: set<Id>): set<Id> { set x | x in refs && x !in answered }

  /** What is set out to be scanned is named by membership. */
  lemma {:induction false} ToScanNames(refs: seq<Id>, answered: set<Id>, x: Id)
    ensures x in ToScan(refs, answered) <==> x in refs && x !in answered
  {
    if refs != [] {
      ToScanNames(refs[1..], answered, x);
      assert refs == [refs[0]] + refs[1..];
    }
  }

  lemma PlaceShifts(refs: seq<Id>, x: Id)
    requires Distinct(refs) && refs != [] && x in refs[1..]
    ensures x in refs && refs[0] != x && Place(refs, x) == 1 + Place(refs[1..], x)
  {}

  lemma {:induction false} ToScanInOrder(refs: seq<Id>, answered: set<Id>)
    requires Distinct(refs)
    ensures InOrderOf(ToScan(refs, answered), refs)
  {
    if refs != [] {
      var rest := ToScan(refs[1..], answered);
      ToScanInOrder(refs[1..], answered);
      forall i | 0 <= i < |rest|
        ensures rest[i] in refs && 0 < Place(refs, rest[i]) == 1 + Place(refs[1..], rest[i])
      {
        PlaceShifts(refs, rest[i]);
      }
      if refs[0] !in answered {
        var part := [refs[0]] + rest;
        assert ToScan(refs, answered) == part;
        assert forall i :: 1 <= i < |part| ==> part[i] == rest[i - 1];
      }
    }
  }

  lemma {:induction false} ToScanCounts(refs: seq<Id>, answered: set<Id>)
    requires Distinct(refs)
    ensures |ToScan(refs, answered)| == |Unanswered(refs, answered)|
  {
    if refs != [] {
      var head := refs[0];
      ToScanCounts(refs[1..], answered);
      assert refs == [head] + refs[1..];
      assert head !in refs[1..];
      if head in answered {
        assert Unanswered(refs, answered) == Unanswered(refs[1..], answered);
      } else {
        assert Unanswered(refs, answered) == Unanswered(refs[1..], answered) + {head};
      }
    }
  }

  /** The recording being scanned first, then the ones queued behind it. */
  function SetOut(s: Search, next: Option<Id>): seq<Id> { (if next.Some? then [next.value] else []) + s.queue }

  /** A step passes over recordings that cannot be read, and starts the first that can. */
  lemma {:induction false} StepPassesOver(s: Search, store: Option<set<Id>>) returns (passed: nat)
    requires store.Some?
    ensures var (t, next) := ScanStep(s, store);
            && passed <= |s.queue| && SetOut(t, next) == s.queue[passed..]
            && (forall i :: 0 <= i < passed ==> s.queue[i] !in store.value)
            && (if passed < |s.queue| then next.Some? && next.value in store.value else next.None?)
            && t.scanDone == s.scanDone + passed
            && t.(queue := s.queue, scanDone := s.scanDone, scanning := s.scanning) == s
    decreases |s.queue|
  {
    if s.queue == [] || s.queue[0] in store.value {
      passed := 0;
    } else {
      var later := StepPassesOver(s.(queue := s.queue[1..], scanDone := s.scanDone + 1), store);
      passed := later + 1;
      assert s.queue[1..][later..] == s.queue[passed..];
    }
  }

  /**
   The listed recordings no tier has answered, in their order, less the unreadable
   ones that come before the first readable one.
   */
  predicate SetsOutExactly(out: seq<Id>, store: set<Id>, refs: seq<Id>, answered: set<Id>) {
    && InOrderOf(out, refs)
    && (forall x :: x in out ==> x !in answered)
    && (out != [] ==> out[0] in store)
    && (forall x :: x in refs && x !in answered && x !in out ==>
          x !in store && forall y :: y in out ==> Place(refs, x) < Place(refs, y))
  }

  /** A search started over an open store. */
  predicate StartsExactly(
      store: set<Id>, refs: seq<Id>, hits: map<Id, Snippet>, plain: set<Id>, s: Search, next: Option<Id>) {
    && SetsOutExactly(SetOut(s, next), store, refs, hits.Keys + plain)
    && (next.None? ==> s.queue == [])
    && s.matches == hits
    && s.scanTotal == |Unanswered(refs, hits.Keys + plain)|
    && s.scanDone == s.scanTotal - |SetOut(s, next)|
    && s.scanning == next.Some?
  }

  lemma TailInOrder(part: seq<Id>, refs: seq<Id>, n: nat)
    requires InOrderOf(part, refs) && n <= |part|
    ensures InOrderOf(part[n..], refs)
    ensures forall x, y :: x in part[..n] && y in part[n..] ==> Place(refs, x) < Place(refs, y)
  {}

  lemma TailSetsOut(store: set<Id>, refs: seq<Id>, answered: set<Id>, n: nat)
    requires Distinct(refs) && n <= |ToScan(refs, answered)|
    requires forall i :: 0 <= i < n ==> ToScan(refs, answered)[i] !in store
    requires n < |ToScan(refs, answered)| ==> ToScan(refs, answered)[n] in store
    ensures SetsOutExactly(ToScan(refs, answered)[n..], store, refs, answered)
  {
    var queue := ToScan(refs, answered);
    ToScanInOrder(refs, answered);
    TailInOrder(queue, refs, n);
    forall x
      ensures x in queue[..n] || x in queue[n..] <==> x in refs && x !in answered
    {
      ToScanNames(refs, answered, x);
      assert queue == queue[..n] + queue[n..];
    }
  }

  lemma StartIsExact(s: Search, store: Option<set<Id>>, refs: seq<Id>, hits: map<Id, Snippet>, plain: set<Id>)
    requires store.Some? && Distinct(refs)
    ensures var (t, next) := SearchStart(s, store, refs, hits, plain);
            StartsExactly(store.value, refs, hits, plain, t, next)
  {
    var answered := hits.Keys + plain;
    var queue := ToScan(refs, answered);
    ToScanCounts(refs, answered);
    var built := s.(matches := hits, scanTotal := |queue|, scanDone := 0, queue := queue, scanning := false);
    var passed := StepPassesOver(built, store);
    TailSetsOut(store.value, refs, answered, passed);
    ScanStepConserves(built, store);
  }

  // ----- What is scanned over a run -----

  /** How often a recording is queued, or in flight under the current generation. */
  function Holds(w: World, x: Id): nat {
    multiset(w.search.queue)[x] + multiset(w.flights)[Flight(w.search.generation, x)]
  }

  /** The event brings back a current scan of this recording. */
  predicate ScansNow(w: World, ev: Event, x: Id) { ReturnsNow(w, ev) && w.flights[ev.k].id == x }

  /** How many scans of the recording have come back. */
  function ScansOf(w: World, evs: seq<Event>, n: nat, x: Id): nat
    requires n <= |evs|
  {
    if n == 0 then 0 else ScansOf(w, evs, n - 1, x) + if ScansNow(Run(w, evs, n - 1), evs[n - 1], x) then 1 else 0
  }

  /** A step hands on every recording it can read, once. */
  lemma {:induction false} StepHands(s: Search, store: Option<set<Id>>, x: Id)
    requires store.Some?
    ensures var (t, next) := ScanStep(s, store);
            var kept := multiset(t.queue)[x] + if next == Some(x) then 1 else 0;
            kept <= multiset(s.queue)[x] && (x in store.value ==> kept == multiset(s.queue)[x])
    decreases |s.queue|
  {
    if s.queue != [] {
      assert s.queue == [s.queue[0]] + s.queue[1..];
      if s.queue[0] !in store.value {
        StepHands(s.(queue := s.queue[1..], scanDone := s.scanDone + 1), store, x);
      }
    }
  }

  lemma HoldsAfterStep(w: World, s: Search, x: Id)
    requires w.store.Some? && s.generation == w.search.generation
    ensures var held := multiset(s.queue)[x] + multiset(w.flights)[Flight(s.generation, x)];
            var r := Launch(w, ScanStep(s, w.store));
            Holds(r, x) <= held && (x in w.store.value ==> Holds(r, x) == held)
  {
    StepHands(s, w.store, x);
    ScanStepConserves(s, w.store);
    var (t, next) := ScanStep(s, w.store);
    if next.Some? {
      FlightJoins(w.flights, s.generation, next.value, x);
    }
  }

  lemma FlightJoins(flights: seq<Flight>, g: nat, y: Id, x: Id)
    ensures multiset(flights + [Flight(g, y)])[Flight(g, x)]
         == multiset(flights)[Flight(g, x)] + if x == y then 1 else 0
  {}

  lemma FlightLeaves(flights: seq<Flight>, k: nat, f: Flight)
    requires k < |flights|
    ensures multiset(flights)[f] == multiset(Without(flights, k))[f] + if flights[k] == f then 1 else 0
  {
    assert flights == flights[..k] + [flights[k]] + flights[k + 1..];
  }

  lemma {:induction false} RemoveKeepsTheRest(queue: seq<Id>, id: Id, x: Id)
    ensures multiset(Remove(queue, id))[x] == if x == id then 0 else multiset(queue)[x]
  {
    if queue != [] {
      RemoveKeepsTheRest(queue[1..], id, x);
      assert queue == [queue[0]] + queue[1..];
    }
  }

  /** After the event a recording is owed no more scans, less the one come back; one in the store, as many. */
  predicate StillOwed(w: World, ev: Event, x: Id) {
    var r := Next(w, ev);
    var now := Holds(r, x) + if ScansNow(w, ev, x) then 1 else 0;
    now <= Holds(w, x) && (r.store.Some? && x in r.store.value ==> now == Holds(w, x))
  }

  /** The search as a current result is counted, before the next step. */
  function Counted(w: World, k: nat, snippet: Option<Snippet>): Search
    requires k < |w.flights|
  {
    w.search.(scanDone := w.search.scanDone + 1, scanning := false,
      matches := if snippet.Some? then w.search.matches[w.flights[k].id := snippet.value] else w.search.matches)
  }

  lemma CurrentReturnSteps(w: World, k: nat, snippet: Option<Snippet>)
    requires k < |w.flights| && w.flights[k].generation == w.search.generation
    ensures Next(w, ScanReturns(k, snippet))
         == Launch(w.(flights := Without(w.flights, k)), ScanStep(Counted(w, k, snippet), w.store))
  {}

  lemma CurrentReturnIsOwed(w: World, k: nat, snippet: Option<Snippet>, x: Id)
    requires w.store.Some? && k < |w.flights| && w.flights[k].generation == w.search.generation
    ensures StillOwed(w, ScanReturns(k, snippet), x)
  {
    CurrentReturnSteps(w, k, snippet);
    FlightLeaves(w.flights, k, Flight(w.search.generation, x));
    HoldsAfterStep(w.(flights := Without(w.flights, k)), Counted(w, k, snippet), x);
  }

  lemma ReturnsAreOwed(w: World, k: nat, snippet: Option<Snippet>, x: Id)
    requires PumpOk(w) && k < |w.flights|
    ensures StillOwed(w, ScanReturns(k, snippet), x)
  {
    if w.flights[k].generation == w.search.generation {
      CurrentFlightIsOfTheBuild(w, k);
      CurrentReturnIsOwed(w, k, snippet, x);
    } else {
      FlightLeaves(w.flights, k, Flight(w.search.generation, x));
    }
  }

  /** A recording owed a scan stays owed it until a result of it comes back, or it leaves the store. */
  lemma OwedStaysOwed(w: World, ev: Event, x: Id)
    requires PumpOk(w) && w.built == w.search.generation && Next(w, ev).search.generation == w.search.generation
    ensures StillOwed(w, ev, x)
  {
    if Possible(w, ev) {
      match ev {
        case TickFires(k, _, _, _) =>
          PendingWithout(w.ticks, k, w.search.generation);
        case ScanReturns(k, snippet) =>
          ReturnsAreOwed(w, k, snippet, x);
        case Deleted(id) =>
          RemoveKeepsTheRest(w.search.queue, id, x);
        case _ =>
      }
    }
  }

  lemma LeavingRetires(w: World, ev: Event, x: Id)
    requires w.store.Some? && x in w.store.value && Next(w, ev).search.generation == w.search.generation
    ensures var r := Next(w, ev);
            (r.store.Some? && x in r.store.value) || x in r.retired
  {
    if ReturnsNow(w, ev) {
      ScanStepConserves(Counted(w, ev.k, ev.snippet), w.store);
    }
  }

  lemma RetiredStays(w: World, ev: Event)
    ensures w.retired <= Next(w, ev).retired
  {}

  /**
   Along any run in which a built search is not replaced, a recording comes back
   scanned at most as often as it was owed; and one still in the store has come back,
   or is still owed.
   */
  lemma {:induction false} OwedOverARun(w: World, evs: seq<Event>, n: nat, x: Id)
    requires n <= |evs| && PumpOk(w) && w.built == w.search.generation
    requires Run(w, evs, n).search.generation == w.search.generation
    ensures var r := Run(w, evs, n);
            && r.built == r.search.generation && PumpOk(r)
            && ScansOf(w, evs, n, x) + Holds(r, x) <= Holds(w, x)
            && (w.store.Some? && x in w.store.value ==>
                  || x in r.retired
                  || (r.store.Some? && x in r.store.value && ScansOf(w, evs, n, x) + Holds(r, x) == Holds(w, x)))
  {
    PumpDrains(w, evs, n);
    if n > 0 {
      PumpStaysOk(w, evs, n - 1);
      var before := Run(w, evs, n - 1);
      NextKeeps(before, evs[n - 1]);
      OwedOverARun(w, evs, n - 1, x);
      OwedStaysOwed(before, evs[n - 1], x);
      RetiredStays(before, evs[n - 1]);
      if before.store.Some? && x in before.store.value {
        LeavingRetires(before, evs[n - 1], x);
      }
    }
  }

  // ----- A search, from its start until it has drained -----

  lemma {:induction false} DistinctOnce(s: seq<Id>, x: Id)
    requires Distinct(s)
    ensures multiset(s)[x] == if x in s then 1 else 0
  {
    if s != [] {
      DistinctOnce(s[1..], x);
      assert s == [s[0]] + s[1..];
    }
  }

  lemma NothingOfOurs(w: World, x: Id)
    requires InFlight(w) == 0
    ensures multiset(w.flights)[Flight(w.search.generation, x)] == 0
  {
    if Flight(w.search.generation, x) in w.flights {
      var k :| 0 <= k < |w.flights| && w.flights[k] == Flight(w.search.generation, x);
      OursWithout(w.flights, k, w.search.generation);
    }
  }

  lemma {:induction false} CleanStays(w: World, evs: seq<Event>, n: nat)
    requires n <= |evs| && Clean(w)
    ensures Clean(Run(w, evs, n))
  {
    if n > 0 {
      CleanStays(w, evs, n - 1);
    }
  }

  /** The timer of the current search fires over an open store. */
  predicate Begins(w: World, ev: Event) {
    && Possible(w, ev) && ev.TickFires? && w.ticks[ev.k] == w.search.generation && w.enabled && w.store.Some?
  }

  /** A search that begins owes one scan of each recording no tier has answered, and no other. */
  lemma BeginningOwes(w: World, ev: Event, x: Id)
    requires PumpOk(w) && Begins(w, ev)
    ensures Next(w, ev).built == Next(w, ev).search.generation == w.search.generation
    ensures Holds(Next(w, ev), x) == if x in ev.refs && x !in ev.hits && x !in ev.plain then 1 else 0
  {
    PendingWithout(w.ticks, ev.k, w.search.generation);
    NothingOfOurs(w, x);
    var answered := ev.hits.Keys + ev.plain;
    var queue := ToScan(ev.refs, answered);
    ToScanNames(ev.refs, answered, x);
    ToScanInOrder(ev.refs, answered);
    DistinctOnce(queue, x);
    var s := w.search.(matches := ev.hits, scanTotal := |queue|, scanDone := 0, queue := queue, scanning := false);
    ScanStepConserves(s, w.store);
    HoldsAfterStep(w.(ticks := Without(w.ticks, ev.k)), s, x);
  }

  /**
   A search that begins and runs until it has drained scans each listed recording
   that neither cheaper tier answers and that is still in the store exactly once; no
   recording twice; and no answered or unlisted one at all.
   */
  lemma EveryUnansweredIsScannedOnce(w: World, ev: Event, evs: seq<Event>, n: nat, x: Id)
    requires PumpOk(w) && Clean(w) && Begins(w, ev) && n <= |evs|
    requires Run(Next(w, ev), evs, n).search.generation == w.search.generation
    requires InFlight(Run(Next(w, ev), evs, n)) == 0
    ensures var r, scans := Run(Next(w, ev), evs, n), ScansOf(Next(w, ev), evs, n, x);
            var wanted := x in ev.refs && x !in ev.hits && x !in ev.plain;
            && r.search.scanDone == r.search.scanTotal == |Unanswered(ev.refs, ev.hits.Keys + ev.plain)|
            && scans <= (if wanted then 1 else 0)
            && (wanted && r.store.Some? && x in r.store.value ==> scans == 1)
  {
    var b := Next(w, ev);
    NextKeeps(w, ev);
    BeginningOwes(w, ev, x);
    OwedOverARun(b, evs, n, x);
    var r := Run(b, evs, n);
    assert Clean(b);
    CleanStays(b, evs, n);
    DrainedMeansDone(r);
    NothingOfOurs(r, x);
    StartIsExact(w.search, w.store, ev.refs, ev.hits, ev.plain);
    TotalStands(b, evs, n);
  }

  lemma {:induction false} TotalStands(w: World, evs: seq<Event>, n: nat)
    requires n <= |evs| && PumpOk(w) && w.built == w.search.generation
    requires Run(w, evs, n).search.generation == w.search.generation
    ensures Run(w, evs, n).search.scanTotal == w.search.scanTotal
  {
    if n > 0 {
      PumpStaysOk(w, evs, n - 1);
      NextKeeps(Run(w, evs, n - 1), evs[n - 1]);
      TotalStands(w, evs, n - 1);
      PumpDrains(w, evs, n - 1);
      TotalKept(Run(w, evs, n - 1), evs[n - 1]);
    }
  }

  lemma TotalKept(w: World, ev: Event)
    requires PumpOk(w) && w.built == w.search.generation && Next(w, ev).search.generation == w.search.generation
    ensures Next(w, ev).search.scanTotal == w.search.scanTotal
  {
    if Possible(w, ev) && ev.TickFires? {
      PendingWithout(w.ticks, ev.k, w.search.generation);
    } else if ReturnsNow(w, ev) {
      CurrentFlightIsOfTheBuild(w, ev.k);
      ScanStepConserves(Counted(w, ev.k, ev.snippet), w.store);
    }
  }

  // ----- When nothing shows -----

  /** What drops every result: a needle too short, the toggle turned off, the recordings wiped, the vault locked. */
  predicate Clears(w: World, ev: Event) {
    || (ev.Typed? && w.enabled && !ev.long) || (ev.Toggled? && (w.enabled || !ev.long)) || ev.Wiped? || ev.Locked?
  }

  /** Nothing shows, and no scan of the current generation could change that. */
  predicate Bare(w: World) { w.search.matches == map[] && w.search.queue == [] && InFlight(w) == 0 }

  lemma ClearsAll(w: World, ev: Event)
    requires PumpOk(w) && Clears(w, ev)
    ensures Bare(Next(w, ev)) && Next(w, ev).search == Empty.(generation := w.search.generation + 1)
    ensures Next(w, ev).ticks == w.ticks
  {
    NoneFromTheFuture(w.flights, w.search.generation + 1);
  }

  lemma BareStays(w: World, ev: Event)
    requires PumpOk(w) && Bare(w) && !ev.TickFires?
    ensures Bare(Next(w, ev))
  {
    NoneFromTheFuture(w.flights, w.search.generation + 1);
    if Possible(w, ev) && ev.ScanReturns? {
      OursWithout(w.flights, ev.k, w.search.generation);
    }
  }

  /** Whatever comes back late, nothing shows again before a timer set afterwards has fired. */
  lemma {:induction false} NothingShowsUntilATimer(w: World, ev: Event, evs: seq<Event>, n: nat)
    requires n <= |evs| && PumpOk(w) && Clears(w, ev)
    requires forall i :: 0 <= i < n ==> !evs[i].TickFires?
    ensures Bare(Run(Next(w, ev), evs, n))
  {
    NextKeeps(w, ev);
    if n == 0 {
      ClearsAll(w, ev);
    } else {
      NothingShowsUntilATimer(w, ev, evs, n - 1);
      PumpStaysOk(Next(w, ev), evs, n - 1);
      BareStays(Run(Next(w, ev), evs, n - 1), evs[n - 1]);
    }
  }

  /** A longer needle keeps what shows, and waits on a timer of its own. */
  lemma LongNeedleWaits(w: World)
    requires w.enabled
    ensures var r, g := Next(w, Typed(true)), w.search.generation + 1;
            r == w.(search := w.search.(generation := g), ticks := w.ticks + [g])
  {}

  /** A timer of an older generation, or one that fires with the search turned off, starts nothing. */
  lemma StaleTimerStartsNothing(w: World, ev: Event)
    requires Possible(w, ev) && ev.TickFires? && (w.ticks[ev.k] != w.search.generation || !w.enabled)
    ensures Next(w, ev) == w.(ticks := Without(w.ticks, ev.k))
  {}
}
