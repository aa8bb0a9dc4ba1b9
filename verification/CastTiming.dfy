/** The replay clock of an exported recording: one interval per event kept. */
module CastTiming {
  import opened Options

  /** A stored event; 'c' rows are typed commands, which the replay leaves out. */
  datatype Event = Event(kind: char, offset: Option<int>)

  /** Replay step of an event stored without a time, in milliseconds. */
  const LEGACY_DELTA_MS: int := 50

  function Replayed(events: seq<Event>): (r: seq<Event>) {
    if events == [] then []
    else
      var before, last := Replayed(events[..|events| - 1]), events[|events| - 1];
      if last.kind == 'c' then before else before + [last]
  }

  function Sum(xs: seq<int>): int {
    if xs == [] then 0 else Sum(xs[..|xs| - 1]) + xs[|xs| - 1]
  }

  /** The clock after a run of replayed events: never behind an event's own time, 50 ms on for one without. */
  function Clock(events: seq<Event>): (ms: int)
    ensures ms >= 0
  {
    if events == [] then 0
    else
      var before, last := Clock(events[..|events| - 1]), events[|events| - 1];
      match last.offset
      case None => before + LEGACY_DELTA_MS
      case Some(ms) => if ms > before then ms else before
  }

  /**
   The intervals of the export, as the loop makes them: none is negative, and
   their sums up to each kept event are the replay clock there. Rows left out
   play no part in either.
   */
  method Intervals(events: seq<Event>) returns (out: seq<int>)
    ensures |out| == |Replayed(events)|
    ensures forall i :: 0 <= i < |out| ==> out[i] >= 0
    ensures forall i :: 0 <= i <= |out| ==> Sum(out[..i]) == Clock(Replayed(events)[..i])
  {
    out := [];
    var lastMs := 0;
    for n := 0 to |events|
      invariant FollowsClock(out, Replayed(events[..n]), lastMs)
    {
      ghost var kept := Replayed(events[..n]);
      assert events[..n + 1][..n] == events[..n];
      if events[n].kind != 'c' {
        var ms := match events[n].offset
          case Some(at) => if at > lastMs then at else lastMs
          case None => lastMs + LEGACY_DELTA_MS;
        OneMoreInterval(out, kept, lastMs, events[n], ms);
        out := out + [ms - lastMs];
        lastMs := ms;
      }
    }
    assert events[..|events|] == events;
  }

  /** One interval per kept event, none negative, their sums the clock, which now stands at `ms`. */
  predicate FollowsClock(out: seq<int>, kept: seq<Event>, ms: int) {
    && |out| == |kept| && ms == Clock(kept)
    && (forall i :: 0 <= i < |out| ==> out[i] >= 0)
    && forall i :: 0 <= i <= |out| ==> Sum(out[..i]) == Clock(kept[..i])
  }

  lemma OneMoreInterval(out: seq<int>, kept: seq<Event>, last: int, e: Event, ms: int)
    requires FollowsClock(out, kept, last)
    requires ms == match e.offset case Some(at) => (if at > last then at else last) case None => last + LEGACY_DELTA_MS
    ensures FollowsClock(out + [ms - last], kept + [e], ms)
  {
    var more, events := out + [ms - last], kept + [e];
    assert events[..|kept|] == kept && more[..|out|] == out;
    assert out[..|out|] == out && kept[..|kept|] == kept;
    forall i | 0 <= i <= |more|
      ensures Sum(more[..i]) == Clock(events[..i])
    {
      if i <= |out| {
        assert more[..i] == out[..i] && events[..i] == kept[..i];
      } else {
        assert more[..i] == more && events[..i] == events;
      }
    }
  }

  /** Which rows are kept: every one but the typed commands, each as it is and in its place. */
  lemma {:induction false} ReplayedExactly(events: seq<Event>, k: nat)
    requires k < |events|
    ensures var before, after := Replayed(events[..k]), Replayed(events[k + 1..]);
            Replayed(events) == before + (if events[k].kind == 'c' then [] else [events[k]]) + after
    decreases |events|
  {
    var n := |events| - 1;
    if k < n {
      ReplayedExactly(events[..n], k);
      assert events[..n][..k] == events[..k] && events[..n][k + 1..] == events[k + 1..][..n - k - 1];
      assert events[k + 1..][n - k - 1] == events[n];
    } else {
      assert events[k + 1..] == [];
    }
  }

  /** No typed command is replayed, and nothing else is lost. */
  lemma {:induction false} ReplayedCounts(events: seq<Event>)
    ensures forall e :: e in Replayed(events) <==> e in events && e.kind != 'c'
    ensures |Replayed(events)| == |set k | 0 <= k < |events| && events[k].kind != 'c'|
  {
    if events != [] {
      var n := |events| - 1;
      ReplayedCounts(events[..n]);
      assert events == events[..n] + [events[n]];
      var kept := set k | 0 <= k < n && events[..n][k].kind != 'c';
      assert (set k | 0 <= k < |events| && events[k].kind != 'c') == kept + if events[n].kind != 'c' then {n} else {};
    }
  }

  /** An event stored without a time plays 50 ms after the one before it, a timed one not before it. */
  lemma IntervalOf(events: seq<Event>, e: Event)
    ensures var interval := Clock(events + [e]) - Clock(events);
            match e.offset
            case None => interval == 50
            case Some(ms) => interval >= 0 && Clock(events + [e]) >= ms
                             && (interval > 0 ==> Clock(events + [e]) == ms)
  {
    assert (events + [e])[..|events|] == events;
  }

  /** Every stamped event plays at its stamp. */
  predicate OnTime(events: seq<Event>) {
    forall i :: 0 <= i < |events| && events[i].offset.Some? ==> Clock(events[..i + 1]) == events[i].offset.value
  }

  /** No event is stamped before the stamp or the legacy steps that precede it. */
  predicate NeverBack(events: seq<Event>) {
    forall i, j :: 0 <= i <= j < |events| && events[j].offset.Some? ==> events[j].offset.value >= Floor(events, i, j)
  }

  /** What the events from `i` up to `j` demand of the clock at `j` on their own. */
  function Floor(events: seq<Event>, i: nat, j: nat): int
    requires i <= j < |events|
  {
    (if i == 0 || events[i - 1].offset.None? then 0 else events[i - 1].offset.value)
    + LEGACY_DELTA_MS * Untimed(events, i, j)
  }

  function Untimed(events: seq<Event>, i: nat, j: nat): nat
    requires i <= j <= |events|
    decreases j - i
  {
    if i == j then 0 else Untimed(events, i, j - 1) + if events[j - 1].offset.None? then 1 else 0
  }

  /** The clock is at or past what any stretch of events demands, and is exactly what one of them does. */
  lemma {:induction false} ClockIsGreatestFloor(events: seq<Event>, j: nat)
    requires j < |events|
    ensures forall i :: 0 <= i <= j ==> Clock(events[..j]) >= Floor(events, i, j)
    ensures exists i :: 0 <= i <= j && Clock(events[..j]) == Floor(events, i, j)
  {
    if j == 0 {
      assert events[..0] == [];
      assert Clock(events[..0]) == Floor(events, 0, 0);
    } else {
      ClockIsGreatestFloor(events, j - 1);
      assert events[..j][..j - 1] == events[..j - 1];
      var at := events[j - 1].offset;
      var k :| 0 <= k <= j - 1 && Clock(events[..j - 1]) == Floor(events, k, j - 1);
      forall i | 0 <= i < j
        ensures Floor(events, i, j) == Floor(events, i, j - 1) + if at.None? then LEGACY_DELTA_MS else 0
      {}
      if at.Some? && at.value > Clock(events[..j - 1]) {
        assert Floor(events, j, j) == at.value;
      } else {
        assert Clock(events[..j]) == Floor(events, k, j);
      }
    }
  }

  /** Recordings replay at their stored times exactly when no stamp goes back. */
  lemma OnTimeExactly(events: seq<Event>)
    ensures OnTime(events) <==> NeverBack(events)
  {
    forall j | 0 <= j < |events| && events[j].offset.Some?
      ensures Clock(events[..j + 1]) == events[j].offset.value <==>
              forall i :: 0 <= i <= j ==> events[j].offset.value >= Floor(events, i, j)
    {
      ClockIsGreatestFloor(events, j);
      assert events[..j + 1][..j] == events[..j];
    }
  }
}
