/**
 One relay inbox: frames posted under sortable keys, expiring on their own, taken
 by one consumer that lists the first key, reads it and deletes it in separate
 calls, with posts and expiries in between.
 */
module RelayQueue {
  import opened Options
  import opened Decimals

  /** Timestamps are padded to 13 digits. */
  const WIDTH: nat := 13

  type Key = seq<char>

  datatype Frame = Frame(sender: nat, body: nat, ts: nat)

  /** The key of a frame within its inbox: padded timestamp, dash, random suffix. */
  function KeyOf(ts: nat, rnd: seq<char>): Key { Padded(ts, WIDTH) + "-" + rnd }

  datatype Consumer =
    | Resting
    | Listed(key: Key)
    | Holding(key: Key, frame: Option<Frame>)

  /**
   `posted` remembers every frame ever put under each key, `delivered` the keys
   answered to the consumer in order, `expired` the keys the store dropped while
   nobody held their frame. `passed` are the keys ever listed, and `missed` says,
   for each key, which had been listed already when its frame was posted.
   */
  datatype Inbox = Inbox(
    store: map<Key, Frame>,
    posted: map<Key, Frame>,
    delivered: seq<Key>,
    answers: seq<Frame>,
    expired: set<Key>,
    consumer: Consumer,
    passed: set<Key>,
    missed: map<Key, set<Key>>)

  const Empty := Inbox(map[], map[], [], [], {}, Resting, {}, map[])

  datatype Event =
    | Post(sender: nat, body: nat, ts: nat, rnd: seq<char>)
    | Expire(key: Key)
    | List(first: Option<Key>)
    | Get
    | Delete

  /** The listing's first key: none of the others sorts before it. */
  ghost predicate IsFirst(store: map<Key, Frame>, key: Key) {
    && key in store
    && forall k :: k in store && k != key ==> TextLess(key, k)
  }

  /**
   What the store and the clock guarantee: keys do not collide, the listing is
   sorted, and posting times fit the padding. They may come in any order.
   */
  ghost predicate Possible(q: Inbox, ev: Event) {
    match ev
    case Post(_, _, ts, rnd) => KeyOf(ts, rnd) !in q.posted && ts < Pow10(WIDTH)
    case Expire(key) => key in q.store
    case List(None) => q.consumer.Resting? && q.store == map[]
    case List(Some(key)) => q.consumer.Resting? && IsFirst(q.store, key)
    case Get => q.consumer.Listed?
    case Delete => q.consumer.Holding?
  }

  predicate InHand(q: Inbox, key: Key) {
    q.consumer.Holding? && q.consumer.frame.Some? && q.consumer.key == key
  }

  ghost function Next(q: Inbox, ev: Event): Inbox {
    if !Possible(q, ev) then q
    else match ev
      case Post(sender, body, ts, rnd) =>
        var f := Frame(sender, body, ts);
        var key := KeyOf(ts, rnd);
        q.(store := q.store[key := f], posted := q.posted[key := f], missed := q.missed[key := q.passed])
      case Expire(key) =>
        q.(store := q.store - {key}, expired := if InHand(q, key) then q.expired else q.expired + {key})
      case List(None) => q
      case List(Some(key)) => q.(consumer := Listed(key), passed := q.passed + {key})
      case Get =>
        var key := q.consumer.key;
        q.(consumer := Holding(key, if key in q.store then Some(q.store[key]) else None))
      case Delete =>
        var key, frame := q.consumer.key, q.consumer.frame;
        if frame.None? then q.(store := q.store - {key}, consumer := Resting)
        else q.(store := q.store - {key}, consumer := Resting,
                delivered := q.delivered + [key], answers := q.answers + [frame.value])
  }

  ghost function Run(q: Inbox, evs: seq<Event>, n: nat): Inbox
    requires n <= |evs|
  {
    if n == 0 then q else Next(Run(q, evs, n - 1), evs[n - 1])
  }

  // ----- Conservation -----

  function Hand(q: Inbox): set<Key> {
    if q.consumer.Holding? && q.consumer.frame.Some? then {q.consumer.key} else {}
  }

  /** Queued: in the store and not already read out by the consumer. */
  function Queued(q: Inbox): set<Key> { q.store.Keys - Hand(q) }

  function Delivered(q: Inbox): set<Key> { set i | 0 <= i < |q.delivered| :: q.delivered[i] }

  /** Every posted frame is in exactly one place. */
  ghost predicate Conserved(q: Inbox) {
    && q.posted.Keys == Delivered(q) + Hand(q) + Queued(q) + q.expired
    && Delivered(q) !! Hand(q)
    && (Delivered(q) + Hand(q)) !! Queued(q)
    && (Delivered(q) + Hand(q) + Queued(q)) !! q.expired
  }

  /** Delivered once each, as posted; what is stored or held is what was posted. */
  ghost predicate Faithful(q: Inbox) {
    && |q.answers| == |q.delivered|
    && (forall i, j :: 0 <= i < j < |q.delivered| ==> q.delivered[i] != q.delivered[j])
    && (forall i :: 0 <= i < |q.delivered| ==> q.delivered[i] in q.posted && q.answers[i] == q.posted[q.delivered[i]])
    && (forall k :: k in q.store ==> k in q.posted && q.store[k] == q.posted[k])
    && (Hand(q) != {} ==> q.consumer.key in q.posted && q.consumer.frame.value == q.posted[q.consumer.key])
  }

  /** Delete is only ever called on a key whose frame, if there was one, the consumer holds. */
  ghost predicate Misses(q: Inbox) {
    && (q.consumer.Holding? && q.consumer.frame.None? ==> q.consumer.key !in q.store && q.consumer.key in q.posted)
    && (q.consumer.Listed? ==> q.consumer.key in q.posted)
  }

  // ----- Order -----

  /** Keys carry their frames' timestamps. */
  ghost predicate KeysTell(q: Inbox) {
    forall k :: k in q.posted ==> q.posted[k].ts < Pow10(WIDTH) && exists rnd :: k == KeyOf(q.posted[k].ts, rnd)
  }

  predicate Busy(q: Inbox) { q.consumer.Listed? || q.consumer.Holding? }

  /** Every key is listed at most once, and what was listed is gone from the store once dealt with. */
  ghost predicate Tracks(q: Inbox) {
    && q.missed.Keys == q.posted.Keys && q.passed <= q.posted.Keys
    && (forall k :: k in q.missed ==> q.missed[k] <= q.passed)
    && (forall i :: 0 <= i < |q.delivered| ==> q.delivered[i] in q.passed)
    && (Busy(q) ==> q.consumer.key in q.passed && q.consumer.key !in q.missed[q.consumer.key])
    && (forall k :: k in q.store && k in q.passed ==> Busy(q) && k == q.consumer.key)
  }

  /** A frame posted after another was listed is delivered after it, if both are delivered. */
  ghost predicate Queues(q: Inbox) {
    && (forall i :: 0 <= i < |q.delivered| ==> q.delivered[i] in q.missed)
    && (forall i, j :: 0 <= i <= j < |q.delivered| ==> q.delivered[j] !in q.missed[q.delivered[i]])
    && (Busy(q) ==> forall i :: 0 <= i < |q.delivered| ==> q.consumer.key !in q.missed[q.delivered[i]])
  }

  /** Frame `b`, though stamped earlier, comes after `a`: only because `a` had been listed when it was posted. */
  predicate Excused(q: Inbox, a: Key, b: Key) {
    && a in q.posted && b in q.posted && b in q.missed
    && (q.posted[b].ts < q.posted[a].ts ==> a in q.missed[b])
  }

  ghost predicate Ordered(q: Inbox) {
    && (forall i, j :: 0 <= i < j < |q.delivered| ==> Excused(q, q.delivered[i], q.delivered[j]))
    && (forall i, k :: 0 <= i < |q.delivered| && k in q.store ==> Excused(q, q.delivered[i], k))
    && (Busy(q) ==>
          && (forall k :: k in q.store && k != q.consumer.key ==> Excused(q, q.consumer.key, k))
          && (forall i :: 0 <= i < |q.delivered| ==> Excused(q, q.delivered[i], q.consumer.key)))
  }

  ghost predicate InboxOk(q: Inbox) {
    Conserved(q) && Faithful(q) && Misses(q) && KeysTell(q) && Tracks(q) && Queues(q) && Ordered(q)
  }

  /** With 13-digit padding the first key listed has the earliest timestamp. */
  lemma FirstKeyIsOldest(a: nat, b: nat, r: seq<char>, s: seq<char>)
    requires a < Pow10(WIDTH) && b < Pow10(WIDTH)
    ensures a < b ==> TextLess(KeyOf(a, r), KeyOf(b, s)) && !TextLess(KeyOf(b, s), KeyOf(a, r))
  {
    if a < b {
      KeysCompare(a, b, r, s);
      KeysCompare(b, a, s, r);
    }
  }

  lemma KeysCompare(a: nat, b: nat, r: seq<char>, s: seq<char>)
    requires a < Pow10(WIDTH) && b < Pow10(WIDTH) && a != b
    ensures TextLess(KeyOf(a, r), KeyOf(b, s)) <==> a < b
  {
    var x, y := Padded(a, WIDTH), Padded(b, WIDTH);
    PaddedSort(a, b, WIDTH);
    PaddedIsDigits(a, WIDTH);
    PaddedIsDigits(b, WIDTH);
    DigitsSort(a, b, WIDTH);
    TextLessConcat(x, y, "-" + r, "-" + s);
    assert x + "-" + r == x + ("-" + r);
    assert y + "-" + s == y + ("-" + s);
  }

  lemma ListedIsOldest(q: Inbox, key: Key)
    requires KeysTell(q) && Faithful(q) && IsFirst(q.store, key)
    ensures forall k :: k in q.store ==> q.store[key].ts <= q.store[k].ts
  {
    forall k | k in q.store
      ensures q.store[key].ts <= q.store[k].ts
    {
      var r :| key == KeyOf(q.posted[key].ts, r);
      var s :| k == KeyOf(q.posted[k].ts, s);
      FirstKeyIsOldest(q.store[k].ts, q.store[key].ts, s, r);
    }
  }

  lemma PostConserves(q: Inbox, ev: Event)
    requires Conserved(q) && Faithful(q) && Possible(q, ev) && ev.Post?
    ensures Conserved(Next(q, ev))
  {
    var r := Next(q, ev);
    var key := KeyOf(ev.ts, ev.rnd);
    assert key !in q.posted;
    assert r.posted.Keys == q.posted.Keys + {key};
    assert r.store.Keys == q.store.Keys + {key};
    assert Queued(r) == Queued(q) + {key};
    assert Delivered(r) == Delivered(q) && Hand(r) == Hand(q);
  }

  lemma ExpireConserves(q: Inbox, ev: Event)
    requires Conserved(q) && Possible(q, ev) && ev.Expire?
    ensures Conserved(Next(q, ev))
  {
    var r := Next(q, ev);
    assert Delivered(r) == Delivered(q) && Hand(r) == Hand(q);
    if InHand(q, ev.key) {
      assert Queued(r) == Queued(q);
    } else {
      assert Queued(r) == Queued(q) - {ev.key};
      assert ev.key in Queued(q);
    }
  }

  lemma GetConserves(q: Inbox, ev: Event)
    requires Conserved(q) && Possible(q, ev) && ev.Get?
    ensures Conserved(Next(q, ev))
  {
    var r := Next(q, ev);
    assert Delivered(r) == Delivered(q) && Hand(q) == {};
    if q.consumer.key in q.store {
      assert Hand(r) == {q.consumer.key} && Queued(r) == Queued(q) - Hand(r);
    } else {
      assert Hand(r) == {};
    }
  }

  /** What is stored, held and answered stays what was posted. */
  lemma FaithfulStays(q: Inbox, ev: Event)
    requires Faithful(q) && Misses(q) && Possible(q, ev)
    requires ev.Delete? && q.consumer.frame.Some? ==> q.consumer.key !in q.delivered
    ensures Faithful(Next(q, ev)) && Misses(Next(q, ev))
  {
    assert ev.Post? || ev.List? ==> Hand(Next(q, ev)) == Hand(q);
    assert ev.Delete? && q.consumer.frame.Some? ==> q.consumer.key in Hand(q);
  }

  lemma KeysStillTell(q: Inbox, ev: Event)
    requires KeysTell(q) && Possible(q, ev)
    ensures KeysTell(Next(q, ev))
  {
    if ev.Post? {
      var r, key := Next(q, ev), KeyOf(ev.ts, ev.rnd);
      forall k | k in r.posted
        ensures r.posted[k].ts < Pow10(WIDTH) && exists rnd :: k == KeyOf(r.posted[k].ts, rnd)
      {
        if k == key {
          assert k == KeyOf(r.posted[k].ts, ev.rnd);
        }
      }
    }
  }

  lemma TracksStays(q: Inbox, ev: Event)
    requires Faithful(q) && Misses(q) && Tracks(q) && Possible(q, ev)
    ensures Tracks(Next(q, ev))
  {}

  lemma QueuesStays(q: Inbox, ev: Event)
    requires Faithful(q) && Misses(q) && Tracks(q) && Queues(q) && Possible(q, ev)
    ensures Queues(Next(q, ev))
  {}

  lemma PostIsExcused(q: Inbox, ev: Event)
    requires Faithful(q) && Misses(q) && Tracks(q) && Ordered(q) && Possible(q, ev) && ev.Post?
    ensures Ordered(Next(q, ev))
  {
    var r, key := Next(q, ev), KeyOf(ev.ts, ev.rnd);
    assert r.missed[key] == q.passed;
    assert forall a, b :: Excused(q, a, b) && b != key && a != key ==> Excused(r, a, b);
    assert forall a :: a in q.passed ==> Excused(r, a, key);
  }

  lemma ListIsExcused(q: Inbox, ev: Event)
    requires Faithful(q) && KeysTell(q) && Tracks(q) && Ordered(q) && Possible(q, ev) && ev.List?
    ensures Ordered(Next(q, ev))
  {
    assert forall a, b :: Excused(q, a, b) ==> Excused(Next(q, ev), a, b);
    if ev.first.Some? {
      ListedIsOldest(q, ev.first.value);
    }
  }

  lemma DeleteIsExcused(q: Inbox, ev: Event)
    requires Tracks(q) && Ordered(q) && Possible(q, ev) && ev.Delete?
    ensures Ordered(Next(q, ev))
  {
    assert forall a, b :: Excused(q, a, b) ==> Excused(Next(q, ev), a, b);
  }

  lemma OrderedStays(q: Inbox, ev: Event)
    requires Faithful(q) && Misses(q) && KeysTell(q) && Tracks(q) && Ordered(q) && Possible(q, ev)
    ensures Ordered(Next(q, ev))
  {
    match ev {
      case Post(_, _, _, _) => PostIsExcused(q, ev);
      case List(_) => ListIsExcused(q, ev);
      case Delete => DeleteIsExcused(q, ev);
      case _ =>
        assert forall a, b :: Excused(q, a, b) ==> Excused(Next(q, ev), a, b);
    }
  }

  lemma DeliverySnoc(q: Inbox, r: Inbox, key: Key)
    requires r.delivered == q.delivered + [key]
    ensures Delivered(r) == Delivered(q) + {key}
  {
    assert r.delivered[|q.delivered|] == key;
    forall k | k in Delivered(q)
      ensures k in Delivered(r)
    {
      var i :| 0 <= i < |q.delivered| && q.delivered[i] == k;
      assert r.delivered[i] == k;
    }
  }

  lemma DeliverConserves(q: Inbox)
    requires Conserved(q) && q.consumer.Holding? && q.consumer.frame.Some?
    ensures Conserved(Next(q, Delete))
    ensures q.consumer.key !in q.delivered
  {
    var r, key := Next(q, Delete), q.consumer.key;
    assert key in Hand(q) && key !in Delivered(q);
    DeliverySnoc(q, r, key);
    assert Hand(r) == {} && Queued(r) == Queued(q);
  }

  lemma NextConserves(q: Inbox, ev: Event)
    requires Conserved(q) && Faithful(q) && Misses(q) && Possible(q, ev)
    ensures Conserved(Next(q, ev))
    ensures ev.Delete? && q.consumer.frame.Some? ==> q.consumer.key !in q.delivered
  {
    match ev {
      case Post(_, _, _, _) => PostConserves(q, ev);
      case Expire(_) => ExpireConserves(q, ev);
      case List(_) =>
        assert Hand(Next(q, ev)) == Hand(q);
      case Get => GetConserves(q, ev);
      case Delete =>
        if q.consumer.frame.None? {
          assert Next(q, ev).store == q.store && Hand(Next(q, ev)) == Hand(q) == {};
        } else {
          DeliverConserves(q);
        }
    }
  }

  lemma NextKeeps(q: Inbox, ev: Event)
    requires InboxOk(q)
    ensures InboxOk(Next(q, ev))
  {
    if Possible(q, ev) {
      NextConserves(q, ev);
      FaithfulStays(q, ev);
      KeysStillTell(q, ev);
      TracksStays(q, ev);
      QueuesStays(q, ev);
      OrderedStays(q, ev);
    }
  }

  lemma {:induction false} InboxStaysOk(evs: seq<Event>, n: nat)
    requires n <= |evs|
    ensures InboxOk(Run(Empty, evs, n))
  {
    if n == 0 {
      assert Delivered(Empty) == {} && Queued(Empty) == {};
    } else {
      InboxStaysOk(evs, n - 1);
      NextKeeps(Run(Empty, evs, n - 1), evs[n - 1]);
    }
  }

  /**
   Over any interleaving of posts, expiries and one consumer's calls, with stamps
   in any order: every frame posted is delivered, in the consumer's hand, queued or
   expired, and only one of these; no frame is delivered twice; and each comes with
   the sender and body it was posted with.
   */
  lemma RelayDeliversOnce(evs: seq<Event>, n: nat)
    requires n <= |evs|
    ensures var q := Run(Empty, evs, n);
            && Conserved(q)
            && |q.answers| == |q.delivered|
            && (forall i, j :: 0 <= i < j < |q.delivered| ==> q.delivered[i] != q.delivered[j])
            && (forall i :: 0 <= i < |q.delivered| ==>
                 q.delivered[i] in q.posted && q.answers[i] == q.posted[q.delivered[i]])
  {
    InboxStaysOk(evs, n);
  }

  /** The event posts this frame under this key. */
  ghost predicate Posts(q: Inbox, ev: Event, key: Key, f: Frame) {
    Possible(q, ev) && ev.Post? && Frame(ev.sender, ev.body, ev.ts) == f && KeyOf(ev.ts, ev.rnd) == key
  }

  predicate Remembers(q: Inbox, key: Key, f: Frame) { key in q.posted && q.posted[key] == f }

  lemma PostedStep(q: Inbox, ev: Event, key: Key, f: Frame)
    ensures Remembers(Next(q, ev), key, f) <==> Remembers(q, key, f) || Posts(q, ev, key, f)
  {}

  ghost predicate PostsAt(evs: seq<Event>, m: nat, key: Key, f: Frame)
    requires m < |evs|
  {
    Posts(Run(Empty, evs, m), evs[m], key, f)
  }

  /** What the inbox remembers as posted is exactly what some event posted. */
  lemma {:induction false} PostedExactly(evs: seq<Event>, n: nat, key: Key, f: Frame)
    requires n <= |evs|
    ensures Remembers(Run(Empty, evs, n), key, f) <==> exists m :: 0 <= m < n && PostsAt(evs, m, key, f)
  {
    if n > 0 {
      PostedExactly(evs, n - 1, key, f);
      PostedStep(Run(Empty, evs, n - 1), evs[n - 1], key, f);
      assert PostsAt(evs, n - 1, key, f) <==> Posts(Run(Empty, evs, n - 1), evs[n - 1], key, f);
    }
  }

  /** So every frame answered is one that was posted: its sender, its body and its stamp. */
  lemma AnsweredWasPosted(evs: seq<Event>, n: nat, i: nat)
    requires n <= |evs| && i < |Run(Empty, evs, n).answers|
    ensures var q := Run(Empty, evs, n);
            i < |q.delivered| && exists m :: 0 <= m < n && PostsAt(evs, m, q.delivered[i], q.answers[i])
  {
    InboxStaysOk(evs, n);
    var q := Run(Empty, evs, n);
    PostedExactly(evs, n, q.delivered[i], q.answers[i]);
  }

  /** And a frame is only ever lost to its own expiry. */
  lemma {:induction false} ExpiredWasDropped(evs: seq<Event>, n: nat, key: Key)
    requires n <= |evs| && key in Run(Empty, evs, n).expired
    ensures exists m :: 0 <= m < n && evs[m] == Expire(key)
  {
    if key in Run(Empty, evs, n - 1).expired {
      ExpiredWasDropped(evs, n - 1, key);
    } else {
      assert evs[n - 1] == Expire(key);
    }
  }

  /** One undisturbed poll of an inbox that is not empty answers its first frame and takes it out. */
  lemma PollTakesTheFirst(q: Inbox, key: Key)
    requires q.consumer.Resting? && IsFirst(q.store, key)
    ensures Run(q, [List(Some(key)), Get, Delete], 3)
         == q.(store := q.store - {key}, delivered := q.delivered + [key], answers := q.answers + [q.store[key]],
               passed := q.passed + {key})
  {
    var evs := [List(Some(key)), Get, Delete];
    var listed := q.(consumer := Listed(key), passed := q.passed + {key});
    assert Run(q, evs, 0) == q;
    assert Run(q, evs, 1) == listed;
    assert Run(q, evs, 2) == listed.(consumer := Holding(key, Some(q.store[key])));
  }

  /** A poll whose frame expires under it answers nothing, loses nothing else, and is ready for the next. */
  lemma PollMissesAnExpiredFrame(q: Inbox, key: Key)
    requires q.consumer.Resting? && IsFirst(q.store, key)
    ensures Run(q, [List(Some(key)), Expire(key), Get, Delete], 4)
         == q.(store := q.store - {key}, expired := q.expired + {key}, passed := q.passed + {key})
  {
    var evs := [List(Some(key)), Expire(key), Get, Delete];
    var listed := q.(consumer := Listed(key), passed := q.passed + {key});
    var dropped := listed.(store := q.store - {key}, expired := q.expired + {key});
    assert Run(q, evs, 0) == q;
    assert Run(q, evs, 1) == listed;
    assert Run(q, evs, 2) == dropped;
    assert Run(q, evs, 3) == dropped.(consumer := Holding(key, None));
    assert q.store - {key} - {key} == q.store - {key};
  }

  /** Frames come out in the order of their stamps. */
  ghost predicate Sorted(q: Inbox) {
    forall i, j :: 0 <= i < j < |q.answers| ==> q.answers[i].ts <= q.answers[j].ts
  }

  /** No delivered frame had been posted below one that was listed already and is delivered too. */
  ghost predicate NoneLate(q: Inbox) {
    forall i, j :: 0 <= i < |q.delivered| && 0 <= j < |q.delivered| && q.delivered[j] in q.missed
                   && q.delivered[i] in q.missed[q.delivered[j]] && i < |q.answers| && j < |q.answers|
              ==> q.answers[i].ts <= q.answers[j].ts
  }

  /** Delivery follows the stamps exactly when no frame came in stamped below one already listed. */
  lemma RelayOrderExactly(evs: seq<Event>, n: nat)
    requires n <= |evs|
    ensures Sorted(Run(Empty, evs, n)) <==> NoneLate(Run(Empty, evs, n))
  {
    InboxStaysOk(evs, n);
    var q := Run(Empty, evs, n);
    if NoneLate(q) {
      forall i, j | 0 <= i < j < |q.answers|
        ensures q.answers[i].ts <= q.answers[j].ts
      {
        assert Excused(q, q.delivered[i], q.delivered[j]);
      }
    }
  }

  /** The post is stamped at or after everything listed so far. */
  predicate Timely(q: Inbox, ev: Event) {
    ev.Post? ==> forall k :: k in q.passed && k in q.posted ==> q.posted[k].ts <= ev.ts
  }

  ghost predicate MissedAreEarlier(q: Inbox) {
    forall a, b :: b in q.missed && a in q.missed[b] && a in q.posted && b in q.posted ==>
        q.posted[a].ts <= q.posted[b].ts
  }

  lemma TimelyStep(q: Inbox, ev: Event)
    requires Tracks(q) && MissedAreEarlier(q) && Timely(q, ev)
    ensures MissedAreEarlier(Next(q, ev))
  {}

  ghost predicate TimelyAt(evs: seq<Event>, m: nat)
    requires m < |evs|
  {
    Timely(Run(Empty, evs, m), evs[m])
  }

  lemma TimelyNext(evs: seq<Event>, m: nat)
    requires m < |evs| && TimelyAt(evs, m) && MissedAreEarlier(Run(Empty, evs, m))
    ensures MissedAreEarlier(Run(Empty, evs, m + 1))
  {
    InboxStaysOk(evs, m);
    TimelyStep(Run(Empty, evs, m), evs[m]);
  }

  lemma {:induction false} TimelyRun(evs: seq<Event>, n: nat)
    requires n <= |evs| && forall m {:trigger TimelyAt(evs, m)} :: 0 <= m < n ==> TimelyAt(evs, m)
    ensures MissedAreEarlier(Run(Empty, evs, n))
  {
    if n > 0 {
      TimelyRun(evs, n - 1);
      TimelyNext(evs, n - 1);
    }
  }

  /** So posts that come no earlier than what has been listed are delivered in the order of their stamps. */
  lemma TimelyPostsKeepOrder(evs: seq<Event>, n: nat)
    requires n <= |evs| && forall m {:trigger TimelyAt(evs, m)} :: 0 <= m < n ==> TimelyAt(evs, m)
    ensures Sorted(Run(Empty, evs, n))
  {
    TimelyRun(evs, n);
    InboxStaysOk(evs, n);
    RelayOrderExactly(evs, n);
  }
}
