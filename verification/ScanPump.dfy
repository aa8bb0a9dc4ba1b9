/**
 The history content search: a debounce timer, a queue of recordings, one
 background scan in flight, and a generation number that retires whatever is
 late. Timers fire and scans come back in any order, between keystrokes, toggles,
 deletions and locks.
 */
module ScanPump {
  import opened Options

  type Id = nat
  type Snippet = seq<char>

  /** The search state kept on screen. */
  datatype Search = Search(
    generation: nat,
    queue: seq<Id>,
    scanDone: nat,
    scanTotal: nat,
    scanning: bool,
    matches: map<Id, Snippet>)

  const Empty := Search(0, [], 0, 0, false, map[])

  /** A background scan of one recording, stamped with the generation that started it. */
  datatype Flight = Flight(generation: nat, id: Id)

  /**
   Everything the search depends on. `retired` are recordings gone for good;
   `built` is the generation whose search, or reset, made the present queue.
   */
  datatype World = World(
    search: Search,
    enabled: bool,
    store: Option<set<Id>>,
    retired: set<Id>,
    ticks: seq<nat>,
    flights: seq<Flight>,
    built: nat)

  // ----- The handlers -----

  function Reset(s: Search): Search { Empty.(generation := s.generation + 1) }

  /** Pop recordings until one can be read; that one is the scan to start. */
  function ScanStep(s: Search, store: Option<set<Id>>): (Search, Option<Id>)
    decreases |s.queue|
  {
    if s.queue == [] then (s.(scanning := false), None)
    else
      var id, rest := s.queue[0], s.(queue := s.queue[1..]);
      if store.None? then (rest.(scanning := false, queue := []), None)
      else if id !in store.value then ScanStep(rest.(scanDone := rest.scanDone + 1), store)
      else (rest.(scanning := true), Some(id))
  }

  /** The recordings that neither the command tier nor the plain filter answers. */
  function ToScan(refs: seq<Id>, answered: set<Id>): seq<Id> {
    if refs == [] then []
    else (if refs[0] in answered then [] else [refs[0]]) + ToScan(refs[1..], answered)
  }

  function SearchStart(s: Search, store: Option<set<Id>>, refs: seq<Id>, hits: map<Id, Snippet>, plain: set<Id>)
      : (Search, Option<Id>) {
    if store.None? then (s, None)
    else
      var queue := ToScan(refs, hits.Keys + plain);
      ScanStep(s.(matches := hits, scanTotal := |queue|, scanDone := 0, queue := queue, scanning := false), store)
  }

  function Remove(queue: seq<Id>, id: Id): (r: seq<Id>)
    ensures |r| <= |queue|
  {
    if queue == [] then []
    else (if queue[0] == id then [] else [queue[0]]) + Remove(queue[1..], id)
  }

  function Forget(s: Search, id: Id): Search {
    var queue := Remove(s.queue, id);
    s.(matches := s.matches - {id}, queue := queue, scanDone := s.scanDone + |s.queue| - |queue|)
  }

  // ----- Events -----

  datatype Event =
    | Typed(long: bool)
    | Toggled(long: bool)
    | TickFires(k: nat, refs: seq<Id>, hits: map<Id, Snippet>, plain: set<Id>)
    | ScanReturns(k: nat, snippet: Option<Snippet>)
    | Deleted(id: Id)
    | Pruned(ids: set<Id>)
    | Recorded(id: Id)
    | Wiped
    | Locked
    | Unlocked(logs: set<Id>, long: bool)

  function Without<T>(s: seq<T>, k: nat): seq<T>
    requires k < |s|
  {
    s[..k] + s[k + 1..]
  }

  /** Every search edit while the toggle is on: retire what runs, and wait before scanning. */
  function Debounce(w: World, long: bool): World {
    if !long then w.(search := Reset(w.search), built := w.search.generation + 1)
    else
      var g := w.search.generation + 1;
      w.(search := w.search.(generation := g), ticks := w.ticks + [g])
  }

  function Launch(w: World, step: (Search, Option<Id>)): World {
    w.(search := step.0,
       flights := if step.1.Some? then w.flights + [Flight(step.0.generation, step.1.value)] else w.flights)
  }

  predicate Distinct(s: seq<Id>) {
    forall i, j :: 0 <= i < j < |s| ==> s[i] != s[j]
  }

  /** What the store guarantees: its lists name live recordings, each once. */
  predicate Possible(w: World, ev: Event) {
    match ev
    case TickFires(k, refs, hits, plain) =>
      k < |w.ticks| && (w.store.Some? ==>
        Distinct(refs) && (forall i :: 0 <= i < |refs| ==> refs[i] in w.store.value) && hits.Keys <= w.store.value)
    case ScanReturns(k, _) => k < |w.flights|
    case Recorded(id) => w.store.Some? && id !in w.retired
    case Unlocked(logs, _) => w.store.None? && logs !! w.retired
    case _ => true
  }

  function Next(w: World, ev: Event): World {
    if !Possible(w, ev) then w
    else match ev
      case Typed(long) => if w.enabled then Debounce(w, long) else w
      case Toggled(long) =>
        var t := w.(enabled := !w.enabled);
        if t.enabled then Debounce(t, long) else t.(search := Reset(t.search), built := t.search.generation + 1)
      case TickFires(k, refs, hits, plain) =>
        var t := w.(ticks := Without(w.ticks, k));
        if w.ticks[k] != w.search.generation || !w.enabled then t
        else Launch(t, SearchStart(w.search, w.store, refs, hits, plain))
               .(built := if w.store.Some? then w.search.generation else w.built)
      case ScanReturns(k, snippet) =>
        var t := w.(flights := Without(w.flights, k));
        if w.flights[k].generation != w.search.generation then t
        else
          var counted := w.search.(scanDone := w.search.scanDone + 1, scanning := false,
            matches := if snippet.Some? then w.search.matches[w.flights[k].id := snippet.value] else w.search.matches);
          Launch(t, ScanStep(counted, w.store))
      case Deleted(id) =>
        w.(search := Forget(w.search, id), retired := w.retired + {id},
           store := if w.store.Some? then Some(w.store.value - {id}) else None)
      case Pruned(ids) =>
        w.(retired := w.retired + ids, store := if w.store.Some? then Some(w.store.value - ids) else None)
      case Recorded(id) => w.(store := Some(w.store.value + {id}))
      case Wiped =>
        w.(search := Reset(w.search), built := w.search.generation + 1,
           retired := w.retired + (if w.store.Some? then w.store.value else {}),
           store := if w.store.Some? then Some({}) else None)
      case Locked => w.(search := Reset(w.search), built := w.search.generation + 1, store := None)
      case Unlocked(logs, long) =>
        var t := w.(store := Some(logs));
        if t.enabled then Debounce(t, long) else t
  }

  function Run(w: World, evs: seq<Event>, n: nat): World
    requires n <= |evs|
  {
    if n == 0 then w else Next(Run(w, evs, n - 1), evs[n - 1])
  }

  // ----- Counting what is in flight -----

  function Ours(flights: seq<Flight>, generation: nat): nat {
    if flights == [] then 0
    else Ours(flights[..|flights| - 1], generation) + if flights[|flights| - 1].generation == generation then 1 else 0
  }

  function Pending(ticks: seq<nat>, generation: nat): nat {
    if ticks == [] then 0
    else Pending(ticks[..|ticks| - 1], generation) + if ticks[|ticks| - 1] == generation then 1 else 0
  }

  lemma {:induction false} OursConcat(a: seq<Flight>, b: seq<Flight>, g: nat)
    ensures Ours(a + b, g) == Ours(a, g) + Ours(b, g)
  {
    if b == [] {
      assert a + b == a;
    } else {
      OursConcat(a, b[..|b| - 1], g);
      assert (a + b)[..|a + b| - 1] == a + b[..|b| - 1];
    }
  }

  lemma {:induction false} PendingConcat(a: seq<nat>, b: seq<nat>, g: nat)
    ensures Pending(a + b, g) == Pending(a, g) + Pending(b, g)
  {
    if b == [] {
      assert a + b == a;
    } else {
      PendingConcat(a, b[..|b| - 1], g);
      assert (a + b)[..|a + b| - 1] == a + b[..|b| - 1];
    }
  }

  lemma OursWithout(flights: seq<Flight>, k: nat, g: nat)
    requires k < |flights|
    ensures Ours(flights, g) == Ours(Without(flights, k), g) + if flights[k].generation == g then 1 else 0
  {
    OursConcat(flights[..k], flights[k + 1..], g);
    OursConcat(flights[..k], [flights[k]], g);
    OursConcat(flights[..k] + [flights[k]], flights[k + 1..], g);
    assert flights == flights[..k] + [flights[k]] + flights[k + 1..];
  }

  lemma PendingWithout(ticks: seq<nat>, k: nat, g: nat)
    requires k < |ticks|
    ensures Pending(ticks, g) == Pending(Without(ticks, k), g) + if ticks[k] == g then 1 else 0
  {
    PendingConcat(ticks[..k], ticks[k + 1..], g);
    PendingConcat(ticks[..k], [ticks[k]], g);
    PendingConcat(ticks[..k] + [ticks[k]], ticks[k + 1..], g);
    assert ticks == ticks[..k] + [ticks[k]] + ticks[k + 1..];
  }

  /** Nothing carries a generation that has not begun, so the next one starts clean. */
  lemma {:induction false} NoneFromTheFuture(flights: seq<Flight>, g: nat)
    requires forall i :: 0 <= i < |flights| ==> flights[i].generation < g
    ensures Ours(flights, g) == 0
  {
    if flights != [] {
      NoneFromTheFuture(flights[..|flights| - 1], g);
    }
  }

  lemma {:induction false} NoTickFromTheFuture(ticks: seq<nat>, g: nat)
    requires forall i :: 0 <= i < |ticks| ==> ticks[i] < g
    ensures Pending(ticks, g) == 0
  {
    if ticks != [] {
      NoTickFromTheFuture(ticks[..|ticks| - 1], g);
    }
  }

  // ----- The invariant -----

  function InFlight(w: World): nat { Ours(w.flights, w.search.generation) }

  function Waiting(w: World): nat { Pending(w.ticks, w.search.generation) }

  predicate NothingFromTheFuture(w: World) {
    && w.built <= w.search.generation
    && (forall i :: 0 <= i < |w.flights| ==> w.flights[i].generation <= w.search.generation)
    && (forall i :: 0 <= i < |w.ticks| ==> w.ticks[i] <= w.search.generation)
  }

  /** Every recording the search set out to scan is done, queued, or in flight. */
  predicate Conserved(w: World) {
    w.search.scanDone + |w.search.queue| + InFlight(w) == w.search.scanTotal
  }

  /**
   The search either waits for its timer, with nothing of its own in flight, or
   has been built: then its counts add up, at most one scan of its own is in
   flight, and none means the queue is drained.
   */
  predicate PumpOk(w: World) {
    && NothingFromTheFuture(w)
    && Waiting(w) <= 1 && InFlight(w) <= 1
    && (w.built < w.search.generation ==> InFlight(w) == 0)
    && (w.built == w.search.generation ==>
          && Waiting(w) == 0
          && Conserved(w)
          && (InFlight(w) == 0 ==> w.search.queue == [])
          && (InFlight(w) == 1 <==> w.search.scanning))
    && (w.store.None? && w.built == w.search.generation ==> InFlight(w) == 0)
  }

  lemma {:induction false} ScanStepConserves(s: Search, store: Option<set<Id>>)
    requires store.Some?
    ensures var (t, next) := ScanStep(s, store);
            && t.generation == s.generation && t.scanTotal == s.scanTotal && t.matches == s.matches
            && t.scanDone + |t.queue| + (if next.Some? then 1 else 0) == s.scanDone + |s.queue|
            && t.scanDone >= s.scanDone
            && (next.None? ==> t.queue == []) && (next.Some? <==> t.scanning)
            && (next.Some? ==> next.value in store.value && next.value in s.queue)
            && (forall x :: x in t.queue ==> x in s.queue)
    decreases |s.queue|
  {
    if s.queue != [] && s.queue[0] !in store.value {
      ScanStepConserves(s.(queue := s.queue[1..], scanDone := s.scanDone + 1), store);
    }
  }

  lemma DebounceKeeps(w: World, long: bool)
    requires NothingFromTheFuture(w)
    ensures PumpOk(Debounce(w, long))
  {
    var g := w.search.generation + 1;
    NoneFromTheFuture(w.flights, g);
    NoTickFromTheFuture(w.ticks, g);
    PendingConcat(w.ticks, [g], g);
  }

  lemma ResetKeeps(w: World)
    requires NothingFromTheFuture(w)
    ensures PumpOk(w.(search := Reset(w.search), built := w.search.generation + 1))
  {
    NoneFromTheFuture(w.flights, w.search.generation + 1);
    NoTickFromTheFuture(w.ticks, w.search.generation + 1);
  }

  /** A step that starts from a clean slate of its own generation. */
  lemma LaunchKeeps(w: World, s: Search)
    requires NothingFromTheFuture(w) && w.store.Some? && w.built == w.search.generation
    requires s.generation == w.search.generation && InFlight(w) == 0 && Waiting(w) == 0
    requires s.scanDone + |s.queue| == s.scanTotal
    ensures PumpOk(Launch(w, ScanStep(s, w.store)))
  {
    ScanStepConserves(s, w.store);
    var (t, next) := ScanStep(s, w.store);
    if next.Some? {
      var f := Flight(t.generation, next.value);
      OursConcat(w.flights, [f], t.generation);
    }
  }

  lemma TickKeeps(w: World, ev: Event)
    requires PumpOk(w) && Possible(w, ev) && ev.TickFires?
    ensures PumpOk(Next(w, ev))
  {
    var t := w.(ticks := Without(w.ticks, ev.k));
    PendingWithout(w.ticks, ev.k, w.search.generation);
    if w.ticks[ev.k] == w.search.generation && w.enabled && w.store.Some? {
      var queue := ToScan(ev.refs, ev.hits.Keys + ev.plain);
      LaunchKeeps(t.(built := w.search.generation),
                  w.search.(matches := ev.hits, scanTotal := |queue|, scanDone := 0, queue := queue,
                      scanning := false));
    }
  }

  lemma ScanReturnsKeeps(w: World, ev: Event)
    requires PumpOk(w) && Possible(w, ev) && ev.ScanReturns?
    ensures PumpOk(Next(w, ev))
  {
    if w.flights[ev.k].generation == w.search.generation {
      CurrentFlightIsOfTheBuild(w, ev.k);
      CurrentReturnKeeps(w, ev.k, ev.snippet);
    } else {
      OursWithout(w.flights, ev.k, w.search.generation);
    }
  }

  lemma CurrentReturnKeeps(w: World, k: nat, snippet: Option<Snippet>)
    requires NothingFromTheFuture(w) && w.store.Some? && w.built == w.search.generation
    requires Conserved(w) && InFlight(w) == 1 && Waiting(w) == 0
    requires k < |w.flights| && w.flights[k].generation == w.search.generation
    ensures PumpOk(Next(w, ScanReturns(k, snippet)))
  {
    OursWithout(w.flights, k, w.search.generation);
    var counted := w.search.(scanDone := w.search.scanDone + 1, scanning := false,
      matches := if snippet.Some? then w.search.matches[w.flights[k].id := snippet.value] else w.search.matches);
    LaunchKeeps(w.(flights := Without(w.flights, k)), counted);
  }

  lemma {:induction false} RemoveShortens(queue: seq<Id>, id: Id)
    ensures queue == [] ==> Remove(queue, id) == []
    ensures id !in Remove(queue, id)
    ensures forall x :: x in Remove(queue, id) ==> x in queue
  {
    if queue != [] {
      RemoveShortens(queue[1..], id);
    }
  }

  /** One event keeps the pump consistent, whatever it is. */
  lemma NextKeeps(w: World, ev: Event)
    requires PumpOk(w)
    ensures PumpOk(Next(w, ev))
    ensures Next(w, ev).search.generation >= w.search.generation
  {
    if Possible(w, ev) {
      match ev {
        case Typed(long) =>
          DebounceKeeps(w, long);
        case Toggled(long) =>
          DebounceKeeps(w.(enabled := !w.enabled), long);
          ResetKeeps(w.(enabled := !w.enabled));
        case TickFires(_, refs, hits, plain) =>
          TickKeeps(w, ev);
          if w.store.Some? {
            ScanStepConserves(w.search.(matches := hits, scanTotal := |ToScan(refs, hits.Keys + plain)|, scanDone := 0,
                                        queue := ToScan(refs, hits.Keys + plain), scanning := false), w.store);
          }
        case ScanReturns(k, snippet) =>
          ScanReturnsKeeps(w, ev);
          ReturnGeneration(w, ev);
        case Deleted(id) =>
          RemoveShortens(w.search.queue, id);
        case Pruned(_) =>
        case Recorded(_) =>
        case Wiped =>
          ResetKeeps(w);
        case Locked =>
          ResetKeeps(w);
        case Unlocked(logs, long) =>
          DebounceKeeps(w.(store := Some(logs)), long);
      }
    }
  }

  lemma ReturnGeneration(w: World, ev: Event)
    requires PumpOk(w) && Possible(w, ev) && ev.ScanReturns?
    ensures Next(w, ev).search.generation == w.search.generation
  {
    if w.flights[ev.k].generation == w.search.generation && w.store.Some? {
      ScanStepConserves(w.search.(scanDone := w.search.scanDone + 1, scanning := false,
        matches := if ev.snippet.Some? then w.search.matches[w.flights[ev.k].id := ev.snippet.value]
            else w.search.matches), w.store);
    }
  }

  /** A search not yet used is a good start, whatever the store holds. */
  lemma UnusedIsOk(enabled: bool, store: Option<set<Id>>)
    ensures PumpOk(World(Empty, enabled, store, {}, [], [], 0)) && Clean(World(Empty, enabled, store, {}, [], [], 0))
  {}

  /** Over any interleaving: the pump stays consistent and generations only grow. */
  lemma {:induction false} PumpStaysOk(w: World, evs: seq<Event>, n: nat)
    requires n <= |evs| && PumpOk(w)
    ensures PumpOk(Run(w, evs, n)) && Run(w, evs, n).search.generation >= w.search.generation
  {
    if n > 0 {
      PumpStaysOk(w, evs, n - 1);
      NextKeeps(Run(w, evs, n - 1), evs[n - 1]);
    }
  }

  /** A result of a retired generation changes nothing but its own departure. */
  lemma StaleResultChangesNothing(w: World, k: nat, snippet: Option<Snippet>)
    requires k < |w.flights| && w.flights[k].generation != w.search.generation
    ensures Next(w, ScanReturns(k, snippet)) == w.(flights := Without(w.flights, k))
  {}

  /** A built search with nothing of its own in flight has drained: all done, none queued. */
  lemma DrainedMeansDone(w: World)
    requires PumpOk(w) && w.built == w.search.generation && InFlight(w) == 0
    ensures w.search.queue == [] && w.search.scanDone == w.search.scanTotal && !w.search.scanning
  {}

  /** And it gets there: every result of its own leaves strictly less to do. */
  lemma EachResultShrinksTheWork(w: World, k: nat, snippet: Option<Snippet>)
    requires PumpOk(w) && k < |w.flights| && w.flights[k].generation == w.search.generation
    ensures var r := Next(w, ScanReturns(k, snippet));
            r.built == w.built && r.search.generation == w.search.generation
            && |r.search.queue| + InFlight(r) < |w.search.queue| + InFlight(w)
  {
    OursWithout(w.flights, k, w.search.generation);
    ScanReturnsKeeps(w, ScanReturns(k, snippet));
    ReturnGeneration(w, ScanReturns(k, snippet));
    var counted := w.search.(scanDone := w.search.scanDone + 1, scanning := false,
      matches := if snippet.Some? then w.search.matches[w.flights[k].id := snippet.value] else w.search.matches);
    assert w.store.Some?;
    ScanStepConserves(counted, w.store);
  }

  // ----- The pump drains -----

  /** The scans a built search still owes. */
  function Work(w: World): nat { |w.search.queue| + InFlight(w) }

  /** A scan of the current generation comes back. */
  predicate ReturnsNow(w: World, ev: Event) {
    ev.ScanReturns? && ev.k < |w.flights| && w.flights[ev.k].generation == w.search.generation
  }

  /** While the search stands, every result of its own leaves less to do, and nothing else leaves more. */
  lemma WorkNeverGrows(w: World, ev: Event)
    requires PumpOk(w) && w.built == w.search.generation && Next(w, ev).search.generation == w.search.generation
    ensures Next(w, ev).built == w.built
    ensures Work(Next(w, ev)) + (if ReturnsNow(w, ev) then 1 else 0) <= Work(w)
  {
    if Possible(w, ev) && ev.ScanReturns? {
      OursWithout(w.flights, ev.k, w.search.generation);
      if ReturnsNow(w, ev) {
        EachResultShrinksTheWork(w, ev.k, ev.snippet);
      }
    } else if Possible(w, ev) && ev.TickFires? {
      PendingWithout(w.ticks, ev.k, w.search.generation);
    } else if Possible(w, ev) && ev.Deleted? {
      RemoveShortens(w.search.queue, ev.id);
    }
  }

  /** How many scans of the current generation have come back. */
  function Results(w: World, evs: seq<Event>, n: nat): nat
    requires n <= |evs|
  {
    if n == 0 then 0 else Results(w, evs, n - 1) + if ReturnsNow(Run(w, evs, n - 1), evs[n - 1]) then 1 else 0
  }

  /**
   Over any run in which a built search is not replaced, the results that have come
   back and the scans still owed never exceed what it set out to do; and when as
   many have come back as were owed, nothing is in flight and done equals total.
   */
  lemma {:induction false} PumpDrains(w: World, evs: seq<Event>, n: nat)
    requires n <= |evs| && PumpOk(w) && w.built == w.search.generation
    requires Run(w, evs, n).search.generation == w.search.generation
    ensures var r := Run(w, evs, n);
            && r.built == r.search.generation && PumpOk(r)
            && Results(w, evs, n) + Work(r) <= Work(w) <= w.search.scanTotal
            && (Results(w, evs, n) >= Work(w) ==>
                  InFlight(r) == 0 && r.search.queue == [] && r.search.scanDone == r.search.scanTotal
                      && !r.search.scanning)
  {
    PumpStaysOk(w, evs, n);
    if n > 0 {
      PumpStaysOk(w, evs, n - 1);
      NextKeeps(Run(w, evs, n - 1), evs[n - 1]);
      PumpDrains(w, evs, n - 1);
      WorkNeverGrows(Run(w, evs, n - 1), evs[n - 1]);
    }
  }

  lemma {:induction false} RunFrom(w: World, ev: Event, evs: seq<Event>, n: nat)
    requires n <= |evs|
    ensures Run(w, [ev] + evs, n + 1) == Run(Next(w, ev), evs, n)
  {
    if n == 0 {
      assert Run(w, [ev] + evs, 0) == w;
    } else {
      RunFrom(w, ev, evs, n - 1);
    }
  }

  lemma {:induction false} SomeFlight(flights: seq<Flight>, g: nat) returns (k: nat)
    requires Ours(flights, g) > 0
    ensures k < |flights| && flights[k].generation == g
  {
    if flights[|flights| - 1].generation == g {
      k := |flights| - 1;
    } else {
      k := SomeFlight(flights[..|flights| - 1], g);
    }
  }

  /** Left to itself it gets there: at most as many results as scans are owed, and it has drained. */
  lemma {:induction false} ResultsDrainIt(w: World) returns (evs: seq<Event>)
    requires PumpOk(w) && w.built == w.search.generation
    ensures |evs| <= Work(w) && forall i :: 0 <= i < |evs| ==> evs[i].ScanReturns?
    ensures var r := Run(w, evs, |evs|);
            && r.search.generation == w.search.generation && InFlight(r) == 0
            && r.search.queue == [] && r.search.scanDone == r.search.scanTotal
    decreases Work(w)
  {
    if InFlight(w) == 0 {
      evs := [];
      DrainedMeansDone(w);
    } else {
      var k := SomeFlight(w.flights, w.search.generation);
      var ev := ScanReturns(k, None);
      EachResultShrinksTheWork(w, k, None);
      NextKeeps(w, ev);
      var rest := ResultsDrainIt(Next(w, ev));
      RunFrom(w, ev, rest, |rest|);
      evs := [ev] + rest;
    }
  }

  // ----- What a deletion leaves behind -----

  /** Deleted recordings are not in the store. */
  predicate Clean(w: World) {
    w.store.Some? ==> w.store.value !! w.retired
  }

  /** The recording is gone, its excerpt too, and no scan under way could bring one back. */
  predicate Gone(w: World, id: Id) {
    && id in w.retired
    && id !in w.search.matches
    && Flight(w.search.generation, id) !in w.flights
  }

  lemma {:induction false} ToScanIsFromRefs(refs: seq<Id>, answered: set<Id>)
    ensures forall x :: x in ToScan(refs, answered) ==> x in refs
  {
    if refs != [] {
      ToScanIsFromRefs(refs[1..], answered);
    }
  }

  lemma GoneStays(w: World, ev: Event, id: Id)
    requires PumpOk(w) && Clean(w) && Gone(w, id)
    ensures Gone(Next(w, ev), id)
  {
    if Possible(w, ev) {
      match ev {
        case TickFires(_, refs, hits, plain) =>
          if w.store.Some? {
            var queue := ToScan(refs, hits.Keys + plain);
            ToScanIsFromRefs(refs, hits.Keys + plain);
            ScanStepConserves(w.search.(matches := hits, scanTotal := |queue|, scanDone := 0, queue := queue,
                scanning := false), w.store);
          }
        case ScanReturns(k, snippet) =>
          ReturnKeepsGone(w, k, snippet, id);
        case Deleted(x) =>
          RemoveShortens(w.search.queue, x);
        case _ =>
      }
    }
  }

  /** A flight of the current generation means a built search over an open store. */
  lemma CurrentFlightIsOfTheBuild(w: World, k: nat)
    requires PumpOk(w) && k < |w.flights| && w.flights[k].generation == w.search.generation
    ensures w.store.Some? && w.built == w.search.generation && InFlight(w) == 1
  {
    OursWithout(w.flights, k, w.search.generation);
  }

  lemma ReturnKeepsGone(w: World, k: nat, snippet: Option<Snippet>, id: Id)
    requires PumpOk(w) && Clean(w) && Gone(w, id) && k < |w.flights|
    ensures Gone(Next(w, ScanReturns(k, snippet)), id)
  {
    if w.flights[k].generation == w.search.generation {
      CurrentFlightIsOfTheBuild(w, k);
      CountedKeepsGone(w, k, snippet, id);
    }
  }

  lemma CountedKeepsGone(w: World, k: nat, snippet: Option<Snippet>, id: Id)
    requires w.store.Some? && Clean(w) && Gone(w, id) && k < |w.flights|
             && w.flights[k].generation == w.search.generation
    ensures Gone(Next(w, ScanReturns(k, snippet)), id)
  {
    assert w.flights[k] in w.flights;
    var counted := w.search.(scanDone := w.search.scanDone + 1, scanning := false,
      matches := if snippet.Some? then w.search.matches[w.flights[k].id := snippet.value] else w.search.matches);
    ScanStepConserves(counted, w.store);
  }

  lemma {:induction false} GoneForGood(w: World, evs: seq<Event>, n: nat, id: Id)
    requires n <= |evs| && PumpOk(w) && Clean(w) && Gone(w, id)
    ensures PumpOk(Run(w, evs, n)) && Clean(Run(w, evs, n)) && Gone(Run(w, evs, n), id)
  {
    if n > 0 {
      GoneForGood(w, evs, n - 1, id);
      var before := Run(w, evs, n - 1);
      NextKeeps(before, evs[n - 1]);
      GoneStays(before, evs[n - 1], id);
    }
  }

  lemma ResultShows(w: World, k: nat, snippet: Snippet)
    requires k < |w.flights| && w.flights[k].generation == w.search.generation && w.store.Some?
    ensures Next(w, ScanReturns(k, Some(snippet))).search.matches == w.search.matches[w.flights[k].id := snippet]
  {
    var counted := w.search.(scanDone := w.search.scanDone + 1, scanning := false,
      matches := w.search.matches[w.flights[k].id := snippet]);
    ScanStepConserves(counted, w.store);
  }

  /** A scan already in flight when its recording is deleted can bring the excerpt back. */
  lemma InFlightExcerptReturns(w: World, id: Id, snippet: Snippet) returns (k: nat)
    requires PumpOk(w) && Flight(w.search.generation, id) in w.flights
    ensures id in Run(Next(w, Deleted(id)), [ScanReturns(k, Some(snippet))], 1).search.matches
  {
    var d := Next(w, Deleted(id));
    k :| 0 <= k < |w.flights| && w.flights[k] == Flight(w.search.generation, id);
    OursWithout(w.flights, k, w.search.generation);
    ResultShows(d, k, snippet);
    assert Run(d, [ScanReturns(k, Some(snippet))], 0) == d;
  }

  ghost predicate CanShowAgain(w: World, id: Id) {
    exists evs: seq<Event>, n: nat :: n <= |evs| && id in Run(w, evs, n).search.matches
  }

  /**
   The excerpt of a deleted recording can be on screen again, without the
   recording ever coming back, exactly when its scan was in flight under the
   current generation as it was deleted.
   */
  lemma DeletedExcerptReturnsExactlyIfInFlight(w: World, id: Id)
    requires PumpOk(w) && Clean(w)
    ensures CanShowAgain(Next(w, Deleted(id)), id) <==> Flight(w.search.generation, id) in w.flights
  {
    if Flight(w.search.generation, id) in w.flights {
      var k := InFlightExcerptReturns(w, id, []);
      assert id in Run(Next(w, Deleted(id)), [ScanReturns(k, Some([]))], 1).search.matches;
    } else {
      NextKeeps(w, Deleted(id));
      GoneNeverShows(Next(w, Deleted(id)), id);
    }
  }

  lemma GoneNeverShows(w: World, id: Id)
    requires PumpOk(w) && Clean(w) && Gone(w, id)
    ensures !CanShowAgain(w, id)
  {
    forall evs: seq<Event>, n: nat | n <= |evs|
      ensures id !in Run(w, evs, n).search.matches
    {
      GoneForGood(w, evs, n, id);
    }
  }

  /** An excerpt held, or in flight under the current generation, can show after its recording has been pruned. */
  lemma PrunedExcerptShows(w: World, ids: set<Id>, id: Id)
    requires PumpOk(w)
    requires id in w.search.matches || Flight(w.search.generation, id) in w.flights
    ensures CanShowAgain(Next(w, Pruned(ids)), id)
  {
    var p := Next(w, Pruned(ids));
    if id in w.search.matches {
      assert id in Run(p, [], 0).search.matches;
    } else {
      var k :| 0 <= k < |w.flights| && w.flights[k] == Flight(w.search.generation, id);
      CurrentFlightIsOfTheBuild(w, k);
      ResultShows(p, k, []);
      assert Run(p, [ScanReturns(k, Some([]))], 0) == p;
      assert id in Run(p, [ScanReturns(k, Some([]))], 1).search.matches;
    }
  }

  /**
   Pruning by size or age does not tell the search: the excerpt of a pruned
   recording can be on screen from then on exactly when the search held it, or had
   its scan in flight under the current generation, as it was pruned.
   */
  lemma PrunedExcerptShowsExactly(w: World, ids: set<Id>, id: Id)
    requires PumpOk(w) && Clean(w) && id in ids
    ensures CanShowAgain(Next(w, Pruned(ids)), id) <==>
            id in w.search.matches || Flight(w.search.generation, id) in w.flights
  {
    if id in w.search.matches || Flight(w.search.generation, id) in w.flights {
      PrunedExcerptShows(w, ids, id);
    } else {
      NextKeeps(w, Pruned(ids));
      GoneNeverShows(Next(w, Pruned(ids)), id);
    }
  }
}
