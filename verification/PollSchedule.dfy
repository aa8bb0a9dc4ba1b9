/** The long-poll loop on an empty inbox: how many list calls one wait can cost. */
module PollSchedule {
  const POLL_INTERVAL_START_MS: int := 500
  const POLL_INTERVAL_MAX_MS: int := 5000
  const MAX_WAIT_MS: int := 120000

  function MinInt(a: int, b: int): int { if a < b then a else b }

  /** When call number `n` is made (the first is number 1), with exact sleeps. */
  function CallTime(n: nat): int
    requires n >= 1
  {
    if n == 1 then 0 else if n == 2 then 500 else if n == 3 then 1500 else if n == 4 then 3500
    else 7500 + 5000 * (n - 5)
  }

  /** The sleep after call number `n`. */
  function IntervalAfter(n: nat): int
    requires n >= 1
  {
    if n == 1 then 500 else if n == 2 then 1000 else if n == 3 then 2000 else if n == 4 then 4000 else 5000
  }

  /** How many list calls a wait of `w` ms costs. */
  function ListCalls(w: int): (n: nat)
    ensures n >= 1 && CallTime(n) >= w && (n > 1 ==> CallTime(n - 1) < w)
  {
    if w <= 0 then 1 else if w <= 500 then 2 else if w <= 1500 then 3 else if w <= 3500 then 4 else if w <= 7500 then 5
    else 5 + (w - 7500 + 4999) / 5000
  }

  /** The call count is the only one whose last call is the first at or past the deadline. */
  lemma ListCallsIsUnique(w: int, n: nat)
    requires n >= 1 && CallTime(n) >= w && (n > 1 ==> CallTime(n - 1) < w)
    ensures n == ListCalls(w)
  {
    var m := ListCalls(w);
    if n < m {
      CallTimeMonotone(n, m - 1);
    } else if m < n {
      CallTimeMonotone(m, n - 1);
    }
  }

  lemma CallTimeMonotone(m: nat, n: nat)
    requires 1 <= m <= n
    ensures CallTime(m) <= CallTime(n)
  {}

  /** 26 list calls in a 110 s window; never more than 28, whatever wait is asked for. */
  lemma CallBudget(asked: int)
    ensures ListCalls(MinInt(asked, MAX_WAIT_MS)) <= 28
    ensures ListCalls(110000) == 26 && ListCalls(MAX_WAIT_MS) == 28
    ensures asked >= 7500 ==> ListCalls(asked) == 5 + (asked - 7500 + 4999) / 5000
  {}

  /**
   The poll loop over an inbox that stays empty. `late[i]` is how much longer than
   asked sleep `i` takes, reads included. Lateness never adds a call; without it
   the count is exact and the answer is less than one longest interval late.
   */
  method LongPoll(asked: int, late: seq<nat>) returns (calls: nat, now: int)
    ensures var wait := MinInt(asked, MAX_WAIT_MS);
            && now >= wait && calls <= ListCalls(wait) <= 28
            && (late == [] ==>
                 calls == ListCalls(wait) && now == CallTime(calls) && (wait > 0 ==> now - wait < POLL_INTERVAL_MAX_MS))
  {
    var deadline := MinInt(asked, MAX_WAIT_MS);
    var pollInterval := POLL_INTERVAL_START_MS;
    now, calls := 0, 0;
    CallBudget(asked);
    while true
      invariant now >= CallTime(calls + 1)
      invariant late == [] ==> now == CallTime(calls + 1)
      invariant calls > 0 ==> CallTime(calls) < deadline
      invariant pollInterval == IntervalAfter(calls + 1)
      decreases deadline - CallTime(calls + 1)
    {
      calls := calls + 1;
      if now >= deadline {
        if calls > ListCalls(deadline) {
          CallTimeMonotone(ListCalls(deadline), calls - 1);
        }
        if late == [] {
          ListCallsIsUnique(deadline, calls);
        }
        return;
      }
      now := now + pollInterval + if calls <= |late| then late[calls - 1] else 0;
      pollInterval := MinInt(pollInterval * 2, POLL_INTERVAL_MAX_MS);
    }
  }
}
