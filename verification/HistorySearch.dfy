/** The search state's handlers as the source runs them, over its mutable fields. */
module HistorySearch {
  import opened Options
  import opened ScanPump
  import opened ScanCoverage

  /** Walk every recording; queue the ones no cheaper tier has answered. */
  method Split(refs: seq<Id>, hits: map<Id, Snippet>, plain: set<Id>) returns (toScan: seq<Id>)
    ensures toScan == ToScan(refs, hits.Keys + plain)
  {
    toScan := [];
    ghost var answered := hits.Keys + plain;
    for i := 0 to |refs|
      invariant toScan + ToScan(refs[i..], answered) == ToScan(refs, answered)
    {
      ghost var rest := ToScan(refs[i + 1..], answered);
      assert refs[i..][0] == refs[i] && refs[i..][1..] == refs[i + 1..];
      if !(refs[i] in hits || refs[i] in plain) {
        assert ToScan(refs[i..], answered) == [refs[i]] + rest;
        assert toScan + ([refs[i]] + rest) == (toScan + [refs[i]]) + rest;
        toScan := toScan + [refs[i]];
      } else {
        assert ToScan(refs[i..], answered) == rest;
      }
    }
  }

  /** Keep every queued recording but one. */
  method Retain(queue: seq<Id>, id: Id) returns (kept: seq<Id>)
    ensures kept == Remove(queue, id)
  {
    kept := [];
    for i := 0 to |queue|
      invariant kept + Remove(queue[i..], id) == Remove(queue, id)
    {
      ghost var rest := Remove(queue[i + 1..], id);
      assert queue[i..][0] == queue[i] && queue[i..][1..] == queue[i + 1..];
      if queue[i] != id {
        assert Remove(queue[i..], id) == [queue[i]] + rest;
        assert kept + ([queue[i]] + rest) == (kept + [queue[i]]) + rest;
        kept := kept + [queue[i]];
      } else {
        assert Remove(queue[i..], id) == rest;
      }
    }
  }

  class HistoryContent {
    var generation: nat
    var queue: seq<Id>
    var scanDone: nat
    var scanTotal: nat
    var scanning: bool
    var matches: map<Id, Snippet>

    function Now(): Search
      reads this
    {
      Search(generation, queue, scanDone, scanTotal, scanning, matches)
    }

    constructor ()
      ensures Now() == Empty
    {
      generation, queue, scanDone, scanTotal, scanning, matches := 0, [], 0, 0, false, map[];
    }

    /** `history_content_reset`: drop every result, keep the count of generations. */
    method Reset()
      modifies this
      ensures Now() == ScanPump.Reset(old(Now()))
    {
      generation := generation + 1;
      queue, scanDone, scanTotal, scanning, matches := [], 0, 0, false, map[];
    }

    /** `history_content_debounce`: the timer to start, if the needle is long enough. */
    method Debounce(needle: seq<char>) returns (tick: Option<nat>)
      modifies this
      ensures |needle| < 2 ==> Now() == ScanPump.Reset(old(Now())) && tick == None
      ensures |needle| >= 2 ==> Now() == old(Now()).(generation := old(generation) + 1) && tick == Some(generation)
    {
      if |needle| < 2 {
        Reset();
        return None;
      }
      generation := generation + 1;
      tick := Some(generation);
    }

    /** `history_scan_step`: the recording to scan next, if any is left. */
    method Step(store: Option<set<Id>>) returns (next: Option<Id>)
      modifies this
      ensures (Now(), next) == ScanStep(old(Now()), store)
    {
      while true
        invariant ScanStep(Now(), store) == ScanStep(old(Now()), store)
        decreases |queue|
      {
        if |queue| == 0 {
          scanning := false;
          return None;
        }
        var id := queue[0];
        queue := queue[1..];
        if store.None? {
          scanning, queue := false, [];
          return None;
        }
        if id !in store.value {
          scanDone := scanDone + 1;
          continue;
        }
        scanning := true;
        return Some(id);
      }
    }

    /** `history_content_search_start`: split the recordings, rebuild the queue, start the first scan. */
    method Start(store: Option<set<Id>>, refs: seq<Id>, hits: map<Id, Snippet>, plain: set<Id>)
        returns (next: Option<Id>)
      modifies this
      ensures (Now(), next) == SearchStart(old(Now()), store, refs, hits, plain)
      ensures store.Some? && Distinct(refs) ==> StartsExactly(store.value, refs, hits, plain, Now(), next)
    {
      if store.None? {
        return None;
      }
      if Distinct(refs) {
        StartIsExact(Now(), store, refs, hits, plain);
      }
      var toScan := Split(refs, hits, plain);
      matches, scanTotal, scanDone, queue, scanning := hits, |toScan|, 0, toScan, false;
      next := Step(store);
    }

    /** `SearchContentScanned`: a result of an older generation drops, and so does its pump. */
    method Scanned(stamp: nat, id: Id, snippet: Option<Snippet>, store: Option<set<Id>>) returns (next: Option<Id>)
      modifies this
      ensures stamp != old(generation) ==> Now() == old(Now()) && next == None
      ensures stamp == old(generation) ==>
                (Now(), next) == ScanStep(old(Now()).(scanDone := old(scanDone) + 1, scanning := false,
                  matches := if snippet.Some? then old(matches)[id := snippet.value] else old(matches)), store)
    {
      if stamp != generation {
        return None;
      }
      scanDone := scanDone + 1;
      scanning := false;
      if snippet.Some? {
        matches := matches[id := snippet.value];
      }
      next := Step(store);
    }

    /** The search's share of `DeleteSessionLog`: the excerpt goes, a queued scan counts as done. */
    method Forget(id: Id)
      modifies this
      ensures Now() == ScanPump.Forget(old(Now()), id)
    {
      matches := matches - {id};
      var queued := |queue|;
      queue := Retain(queue, id);
      scanDone := scanDone + (queued - |queue|);
    }
  }
}
