/**
 What the byte quota guarantees. The window is fixed, not rolling: it restarts with the
 first packet let through 24 hours or more after its last start, so that an interval of
 24 hours can carry up to twice the budget.
 */
module RateQuota {
  import opened Prelude
  import opened RateLimit

  /** A budget below the saturation point of the byte counter, with no more used than it allows. */
  ghost predicate Metered(l: Limiter) {
    0 < l.budget < U64_LIMIT - 1 && l.used <= l.budget
  }

  lemma CheckKeepsMetered(l: Limiter, now: nat)
    requires Metered(l)
    ensures Metered(Check(l, now).next) && Check(l, now).next.budget == l.budget
    ensures Check(l, now).decision == Allow ==> Check(l, now).next.used == UsedAt(l, now) + WIRE_BYTES_PER_PACKET
  {
  }

  // -------------------------------------------------------------- accounting

  /** A run ends in the window it began in, or in one that starts 24 hours or more later. */
  lemma {:induction false} WindowsApart(l: Limiter, times: seq<nat>, from: nat)
    requires Metered(l) && l.windowStart <= from && Ascending(times, from)
    ensures var w := AfterChecks(l, times).windowStart;
            w == l.windowStart || w >= l.windowStart + QUOTA_WINDOW
    decreases |times|
  {
    if times == [] {
    } else {
      CheckKeepsMetered(l, times[0]);
      WindowsApart(Check(l, times[0]).next, times[1..], times[0]);
    }
  }

  /**
   The counter is exact: after any run it holds the wire size of every packet let through
   since the start of the current window (and, if the run never left its first window,
   what was used before), and it is within the budget.
   */
  lemma {:induction false} UsedIsExact(l: Limiter, times: seq<nat>, from: nat, end: nat)
    requires Metered(l) && l.windowStart <= from && Ascending(times, from)
    requires forall i :: 0 <= i < |times| ==> times[i] <= end
    ensures var f := AfterChecks(l, times);
            && f.used <= f.budget == l.budget
            && f.used == (if f.windowStart == l.windowStart then l.used else 0)
                         + 2064 * AllowedIn(l, times, f.windowStart, end)
    decreases |times|
  {
    if times == [] {
    } else {
      var x, next := times[0], Check(l, times[0]).next;
      CheckKeepsMetered(l, x);
      UsedIsExact(next, times[1..], x, end);
      WindowsApart(next, times[1..], x);
    }
  }

  // ------------------------------------------------------------ any interval

  /** Bytes that can still pass in an interval of at most 24 hours that begins at `s`. */
  function Owed(l: Limiter, s: nat): int {
    if l.windowStart > s then l.budget - l.used
    else if s - l.windowStart >= QUOTA_WINDOW then 2 * l.budget
    else 2 * l.budget - l.used
  }

  lemma OwedShrinks(l: Limiter, x: nat, s: nat, t: nat)
    requires Metered(l) && s <= x <= t <= s + QUOTA_WINDOW && Check(l, x).decision == Allow
    ensures Owed(Check(l, x).next, s) + WIRE_BYTES_PER_PACKET <= Owed(l, s)
  {
    CheckKeepsMetered(l, x);
  }

  lemma {:induction false} WithinOwed(l: Limiter, times: seq<nat>, from: nat, s: nat, t: nat)
    requires Metered(l) && s <= from && Ascending(times, from) && t <= s + QUOTA_WINDOW
    ensures WIRE_BYTES_PER_PACKET * AllowedIn(l, times, s, t) <= Owed(l, s)
    decreases |times|
  {
    if times == [] {
    } else {
      var x, next := times[0], Check(l, times[0]).next;
      if t < x {
        NoneAfterInterval(l, times, x, s, t);
      } else {
        CheckKeepsMetered(l, x);
        if Check(l, x).decision == Allow {
          OwedShrinks(l, x, s, t);
        }
        WithinOwed(next, times[1..], x, s, t);
      }
    }
  }

  /** Quota bound: no run carries more than twice the budget in any interval of 24 hours. */
  lemma {:induction false} QuotaBound(l: Limiter, times: seq<nat>, from: nat, s: nat, t: nat)
    requires Metered(l) && Ascending(times, from) && t <= s + QUOTA_WINDOW
    ensures 2064 * AllowedIn(l, times, s, t) <= 2 * l.budget
    decreases |times|
  {
    if times != [] && times[0] < s {
      CheckKeepsMetered(l, times[0]);
      QuotaBound(Check(l, times[0]).next, times[1..], times[0], s, t);
    } else if times != [] {
      WithinOwed(l, times, times[0], s, t);
    }
  }

  /** What a run from a new limiter has sent in the window that is current at `now`. */
  ghost function SentInWindow(l: Limiter, times: seq<nat>, now: nat): nat {
    var f := AfterChecks(l, times);
    if Reopens(f, now) then 0 else WIRE_BYTES_PER_PACKET * AllowedIn(l, times, f.windowStart, now)
  }

  /**
   What the quota refuses, exactly: after every run from a new limiter, a check is refused by the
   quota if and only if the packet would take the bytes sent in the current window over the budget.
   */
  lemma QuotaRefusesExactly(l: Limiter, times: seq<nat>, now: nat)
    requires Metered(l) && l.used == 0 && Ascending(times, l.windowStart)
    requires forall i :: 0 <= i < |times| ==> times[i] <= now
    ensures Check(AfterChecks(l, times), now).decision == QuotaThrottled
            <==> SentInWindow(l, times, now) + 2064 > l.budget
  {
    UsedIsExact(l, times, l.windowStart, now);
  }
}
