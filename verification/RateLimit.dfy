/**
 The packet rate limiter: a token bucket that is refilled only when a packet is let
 through, and a byte quota over a window that restarts with the first packet let through
 24 hours or more after its last start. Token counts are real numbers.
 */
module RateLimit {
  import opened Prelude

  const WIRE_BYTES_PER_PACKET: nat := 2064

  const QUOTA_WINDOW: nat := 24 * 60 * 60 * SECOND

  datatype Decision = Allow | RateThrottled | QuotaThrottled

  datatype Limiter = Limiter(
    maxPps: real,
    burst: real,
    tokens: real,
    lastRefill: nat,
    budget: u64,
    used: u64,
    windowStart: nat)

  datatype Checked = Checked(decision: Decision, next: Limiter)

  /** Tokens that drip in over `nanos` nanoseconds, one nanosecond's worth at a time (see `RefillFormula`). */
  function Refill(maxPps: real, nanos: nat): real {
    if nanos == 0 then 0.0 else Refill(maxPps, nanos - 1) + maxPps / 1000000000.0
  }

  /** In all: the elapsed seconds times the rate. */
  lemma {:induction false} RefillFormula(maxPps: real, nanos: nat)
    ensures Refill(maxPps, nanos) == nanos as real / SECOND as real * maxPps
  {
    if nanos == 0 {
    } else {
      RefillFormula(maxPps, nanos - 1);
      var elapsed := (nanos - 1) as real / SECOND as real;
      assert nanos as real / SECOND as real == elapsed + 1.0 / SECOND as real;
      assert (elapsed + 1.0 / SECOND as real) * maxPps == elapsed * maxPps + maxPps / 1000000000.0;
    }
  }

  function MinReal(a: real, b: real): real {
    if a <= b then a else b
  }

  /** The constructor reads the clock twice: for the bucket and for the quota window. */
  function NewLimiter(maxPps: real, budget: u64, refilled: nat, begun: nat): Limiter {
    var pps := if maxPps > 0.0 then maxPps else 0.0;
    Limiter(pps, 2.0 * pps, 2.0 * pps, refilled, budget, 0, begun)
  }

  /** The tokens the bucket holds at `now`. */
  function Level(l: Limiter, now: nat): real {
    MinReal(l.tokens + Refill(l.maxPps, Monus(now, l.lastRefill)), l.burst)
  }

  predicate Reopens(l: Limiter, now: nat) {
    l.budget > 0 && Monus(now, l.windowStart) >= QUOTA_WINDOW
  }

  function UsedAt(l: Limiter, now: nat): u64 {
    if Reopens(l, now) then 0 else l.used
  }

  function Check(l: Limiter, now: nat): Checked {
    if l.budget > 0 && SatAdd(UsedAt(l, now), WIRE_BYTES_PER_PACKET) > l.budget then Checked(QuotaThrottled, l)
    else if l.maxPps > 0.0 && Level(l, now) < 1.0 then Checked(RateThrottled, l)
    else
      var metered := if l.maxPps > 0.0 then l.(tokens := Level(l, now) - 1.0, lastRefill := now) else l;
      Checked(Allow,
              if l.budget == 0 then metered
              else metered.(used := SatAdd(UsedAt(l, now), WIRE_BYTES_PER_PACKET),
                            windowStart := if Reopens(l, now) then now else l.windowStart))
  }

  /** Without limits, or with none but the largest budget, at which the byte counter saturates. */
  predicate Open(l: Limiter) {
    l.maxPps == 0.0 && (l.budget == 0 || l.budget == U64_LIMIT - 1)
  }

  lemma OpenStays(l: Limiter, now: nat)
    requires Open(l)
    ensures Check(l, now).decision == Allow && Open(Check(l, now).next)
  {
  }

  /** A rate or a budget too small for a single packet. */
  predicate TooSmall(l: Limiter) {
    0.0 < l.maxPps < 0.5 || 0 < l.budget < WIRE_BYTES_PER_PACKET
  }

  /** The limiter as it runs, with its fields updated in place. */
  class RateLimiter {
    const maxPps: real
    const burst: real
    var tokens: real
    var lastRefill: nat
    const budget: u64
    var bytesUsed: u64
    var windowStart: nat

    function View(): Limiter
      reads this
    {
      Limiter(maxPps, burst, tokens, lastRefill, budget, bytesUsed, windowStart)
    }

    constructor (maxPps: real, budget: u64, refilled: nat, begun: nat)
      ensures View() == NewLimiter(maxPps, budget, refilled, begun)
    {
      var pps := if maxPps > 0.0 then maxPps else 0.0;
      this.maxPps, burst, tokens, lastRefill := pps, 2.0 * pps, 2.0 * pps, refilled;
      this.budget, bytesUsed, windowStart := budget, 0, begun;
    }

    method CheckAt(now: nat) returns (decision: Decision)
      modifies this
      ensures Checked(decision, View()) == Check(old(View()), now)
    {
      var used, start := bytesUsed, windowStart;
      if budget > 0 {
        if Monus(now, start) >= QUOTA_WINDOW {
          used, start := 0, now;
        }
        if SatAdd(used, WIRE_BYTES_PER_PACKET) > budget {
          return QuotaThrottled;
        }
      }
      var level := tokens;
      if maxPps > 0.0 {
        var elapsed := Monus(now, lastRefill);
        RefillFormula(maxPps, elapsed);
        level := MinReal(level + elapsed as real / SECOND as real * maxPps, burst);
        if level < 1.0 {
          return RateThrottled;
        }
      }
      if maxPps > 0.0 {
        tokens, lastRefill := level - 1.0, now;
      }
      if budget > 0 {
        bytesUsed, windowStart := SatAdd(used, WIRE_BYTES_PER_PACKET), start;
      }
      decision := Allow;
    }
  }

  // ------------------------------------------------------------------- runs

  /** The decisions on packets that arrive at the given instants. */
  function Decisions(l: Limiter, times: seq<nat>): (ds: seq<Decision>)
    ensures |ds| == |times|
    decreases |times|
  {
    if times == [] then []
    else [Check(l, times[0]).decision] + Decisions(Check(l, times[0]).next, times[1..])
  }

  function AfterChecks(l: Limiter, times: seq<nat>): Limiter
    decreases |times|
  {
    if times == [] then l else AfterChecks(Check(l, times[0]).next, times[1..])
  }

  ghost predicate Ascending(times: seq<nat>, from: nat) {
    && (forall i :: 0 <= i < |times| ==> from <= times[i])
    && (forall i, j :: 0 <= i < j < |times| ==> times[i] <= times[j])
  }

  /** An open limiter refuses nothing, in any run. */
  lemma {:induction false} OpenRefusesNothing(l: Limiter, times: seq<nat>, i: nat)
    requires Open(l) && i < |times|
    ensures Decisions(l, times)[i] == Allow
    decreases |times|
  {
    OpenStays(l, times[0]);
    if i == 0 {
    } else {
      OpenRefusesNothing(Check(l, times[0]).next, times[1..], i - 1);
    }
  }

  /** How many packets are let through at instants of the closed interval from `s` to `t`. */
  function AllowedIn(l: Limiter, times: seq<nat>, s: nat, t: nat): nat
    decreases |times|
  {
    if times == [] then 0
    else
      (if Check(l, times[0]).decision == Allow && s <= times[0] <= t then 1 else 0)
      + AllowedIn(Check(l, times[0]).next, times[1..], s, t)
  }

  ghost predicate Sane(l: Limiter) {
    l.maxPps >= 0.0 && l.burst == 2.0 * l.maxPps && 0.0 <= l.tokens <= l.burst
  }

  lemma {:induction false} RefillAdds(maxPps: real, a: nat, b: nat)
    ensures Refill(maxPps, a + b) == Refill(maxPps, a) + Refill(maxPps, b)
  {
    if b == 0 {
    } else {
      RefillAdds(maxPps, a, b - 1);
    }
  }

  lemma {:induction false} RefillGrows(maxPps: real, a: nat, b: nat)
    requires maxPps >= 0.0 && a <= b
    ensures 0.0 <= Refill(maxPps, a) <= Refill(maxPps, b)
    decreases b
  {
    if b == 0 {
    } else if a < b {
      RefillGrows(maxPps, a, b - 1);
    } else {
      RefillGrows(maxPps, a - 1, b - 1);
    }
  }

  lemma LevelIsSane(l: Limiter, now: nat)
    requires Sane(l)
    ensures 0.0 <= Level(l, now) <= l.burst
  {
    RefillGrows(l.maxPps, 0, Monus(now, l.lastRefill));
  }

  /** The level rises at most at the rate of the refill. */
  lemma LevelRises(l: Limiter, a: nat, b: nat)
    requires Sane(l) && a <= b
    ensures Level(l, b) <= Level(l, a) + Refill(l.maxPps, b - a)
  {
    var x, y := Monus(a, l.lastRefill), Monus(b, l.lastRefill);
    RefillGrows(l.maxPps, 0, b - a);
    RefillGrows(l.maxPps, y - x, b - a);
    RefillAdds(l.maxPps, x, y - x);
  }

  lemma CheckKeepsSane(l: Limiter, now: nat)
    requires Sane(l)
    ensures Sane(Check(l, now).next)
    ensures Check(l, now).next.maxPps == l.maxPps && Check(l, now).next.budget == l.budget
    ensures l.maxPps > 0.0 && Check(l, now).decision == Allow ==> Level(Check(l, now).next, now) == Level(l, now) - 1.0
  {
    LevelIsSane(l, now);
  }

  lemma {:induction false} NoneAfterInterval(l: Limiter, times: seq<nat>, from: nat, s: nat, t: nat)
    requires Ascending(times, from) && t < from
    ensures AllowedIn(l, times, s, t) == 0
    decreases |times|
  {
    if times == [] {
    } else {
      NoneAfterInterval(Check(l, times[0]).next, times[1..], from, s, t);
    }
  }

  /** Not a single packet gets past the limiter, at any time. */
  ghost predicate Closed(l: Limiter) {
    forall now: nat :: Check(l, now).decision != Allow
  }

  lemma TooSmallIsClosed(l: Limiter)
    requires Sane(l) && TooSmall(l)
    ensures Closed(l)
  {
    forall now: nat ensures Check(l, now).decision != Allow {
      LevelIsSane(l, now);
    }
  }

  lemma {:induction false} ClosedAdmitsNone(l: Limiter, times: seq<nat>, s: nat, t: nat)
    requires Closed(l)
    ensures AllowedIn(l, times, s, t) == 0
    decreases |times|
  {
    if times == [] {
    } else {
      assert Check(l, times[0]).next == l;
      ClosedAdmitsNone(l, times[1..], s, t);
    }
  }

  /** From `c` on, no more packets pass than the level at `c` and the refill until `t` pay for. */
  lemma {:induction false} PaidByLevel(l: Limiter, times: seq<nat>, c: nat, s: nat, t: nat)
    requires Sane(l) && l.maxPps > 0.0 && Ascending(times, c) && c <= t
    ensures AllowedIn(l, times, s, t) as real <= Level(l, c) + Refill(l.maxPps, t - c)
    decreases |times|
  {
    LevelIsSane(l, c);
    RefillGrows(l.maxPps, 0, t - c);
    if times == [] {
    } else {
      var x := times[0];
      if t < x {
        NoneAfterInterval(l, times, x, s, t);
      } else {
        var next := Check(l, x).next;
        CheckKeepsSane(l, x);
        PaidByLevel(next, times[1..], x, s, t);
        LevelRises(l, c, x);
        RefillAdds(l.maxPps, x - c, t - x);
      }
    }
  }

  /**
   Token-bucket bound: over every run and every interval from `s` to `t`, at most twice
   the rate plus the rate times the length of the interval are let through.
   */
  lemma {:induction false} BucketBound(l: Limiter, times: seq<nat>, from: nat, s: nat, t: nat)
    requires Sane(l) && l.maxPps > 0.0 && Ascending(times, from) && s <= t
    ensures AllowedIn(l, times, s, t) as real <= 2.0 * l.maxPps + Refill(l.maxPps, t - s)
    decreases |times|
  {
    RefillGrows(l.maxPps, 0, t - s);
    if times != [] && times[0] < s {
      CheckKeepsSane(l, times[0]);
      BucketBound(Check(l, times[0]).next, times[1..], times[0], s, t);
    } else {
      PaidByLevel(l, times, s, s, t);
      LevelIsSane(l, s);
    }
  }

  // --------------------------------------------------------------- progress

  /** The last refill stands at the last packet let through, or the bucket is still full. */
  ghost predicate Explained(l: Limiter, allowed: seq<nat>) {
    if allowed == [] then l.tokens == l.burst else l.lastRefill == allowed[|allowed| - 1]
  }

  ghost function AllowedTimes(l: Limiter, times: seq<nat>): seq<nat>
    decreases |times|
  {
    if times == [] then []
    else (if Check(l, times[0]).decision == Allow then [times[0]] else [])
         + AllowedTimes(Check(l, times[0]).next, times[1..])
  }

  lemma {:induction false} RunIsExplained(l: Limiter, times: seq<nat>, before: seq<nat>)
    requires Sane(l) && l.maxPps > 0.0 && Explained(l, before)
    ensures Sane(AfterChecks(l, times)) && AfterChecks(l, times).maxPps == l.maxPps
    ensures Explained(AfterChecks(l, times), before + AllowedTimes(l, times))
    decreases |times|
  {
    if times == [] {
      assert before + [] == before;
    } else {
      CheckKeepsSane(l, times[0]);
      var next := Check(l, times[0]).next;
      if Check(l, times[0]).decision == Allow {
        RunIsExplained(next, times[1..], before + [times[0]]);
        assert before + [times[0]] + AllowedTimes(next, times[1..]) == before + AllowedTimes(l, times);
      } else {
        RunIsExplained(next, times[1..], before);
        assert AllowedTimes(l, times) == AllowedTimes(next, times[1..]);
      }
    }
  }

  /** A refusal for the rate comes less than one packet's worth of refill after a packet let through. */
  ghost predicate RefusedOnlyEarly(l: Limiter, times: seq<nat>, now: nat) {
    var allowed := AllowedTimes(l, times);
    Check(AfterChecks(l, times), now).decision == RateThrottled
    ==> allowed != [] && Refill(l.maxPps, Monus(now, allowed[|allowed| - 1])) < 1.0
  }

  /** With this configuration, waiting for the refill of one packet is always enough for the rate. */
  ghost predicate WaitingSuffices(maxPps: real, budget: u64) {
    forall refilled: nat, begun: nat, times: seq<nat>, now: nat ::
      RefusedOnlyEarly(NewLimiter(maxPps, budget, refilled, begun), times, now)
  }

  /**
   Progress, for rates of at least one packet in two seconds: after any run, a check is
   refused for its rate only if a packet was let through before it, less than one packet's
   worth of refill ago.
   */
  lemma RefusalIsRecent(maxPps: real, budget: u64, refilled: nat, begun: nat, times: seq<nat>, now: nat)
    requires maxPps >= 0.5
    ensures RefusedOnlyEarly(NewLimiter(maxPps, budget, refilled, begun), times, now)
  {
    var l := NewLimiter(maxPps, budget, refilled, begun);
    RunIsExplained(l, times, []);
    assert [] + AllowedTimes(l, times) == AllowedTimes(l, times);
    RefillGrows(maxPps, 0, Monus(now, AfterChecks(l, times).lastRefill));
  }

  lemma {:induction false} RunKeepsConfig(l: Limiter, times: seq<nat>)
    ensures AfterChecks(l, times).maxPps == l.maxPps && AfterChecks(l, times).budget == l.budget
    decreases |times|
  {
    if times == [] {
    } else {
      RunKeepsConfig(Check(l, times[0]).next, times[1..]);
    }
  }

  /** Without a rate, or with a budget below one packet, no check is refused for its rate. */
  lemma NeverForRate(l: Limiter, times: seq<nat>, now: nat)
    requires l.maxPps <= 0.0 || 0 < l.budget < WIRE_BYTES_PER_PACKET
    ensures Check(AfterChecks(l, times), now).decision != RateThrottled
  {
    RunKeepsConfig(l, times);
  }

  /** Between no rate and half a packet a second, the very first check is refused for its rate. */
  lemma FirstIsRefused(maxPps: real, budget: u64, at: nat)
    requires 0.0 < maxPps < 0.5 && !(0 < budget < WIRE_BYTES_PER_PACKET)
    ensures !RefusedOnlyEarly(NewLimiter(maxPps, budget, at, at), [], at)
  {
    assert AllowedTimes(NewLimiter(maxPps, budget, at, at), []) == [];
  }

  /**
   The exact condition under which waiting suffices: there is no rate, or it is at least one
   packet in two seconds, or the quota refuses everything before the rate is looked at.
   */
  lemma WaitingSufficesExactly(maxPps: real, budget: u64)
    ensures WaitingSuffices(maxPps, budget)
            <==> maxPps <= 0.0 || maxPps >= 0.5 || 0 < budget < WIRE_BYTES_PER_PACKET
  {
    if maxPps <= 0.0 || maxPps >= 0.5 || 0 < budget < WIRE_BYTES_PER_PACKET {
      forall refilled: nat, begun: nat, times: seq<nat>, now: nat
        ensures RefusedOnlyEarly(NewLimiter(maxPps, budget, refilled, begun), times, now)
      {
        if maxPps >= 0.5 {
          RefusalIsRecent(maxPps, budget, refilled, begun, times, now);
        } else {
          NeverForRate(NewLimiter(maxPps, budget, refilled, begun), times, now);
        }
      }
    } else {
      FirstIsRefused(maxPps, budget, 0);
    }
  }

  /** Between no rate and half a packet a second the bucket never holds a token: no run lets anything through. */
  lemma {:induction false} TooSlowAdmitsNothing(l: Limiter, times: seq<nat>, i: nat)
    requires Sane(l) && 0.0 < l.maxPps < 0.5 && i < |times|
    ensures Decisions(l, times)[i] != Allow
    decreases |times|
  {
    LevelIsSane(l, times[0]);
    if i == 0 {
    } else {
      TooSlowAdmitsNothing(l, times[1..], i - 1);
    }
  }

  // ---------------------------------------------------------- lazy and eager

  /** The textbook bucket: tokens and refill instant are brought up to date at every check. */
  function EagerCheck(l: Limiter, now: nat): Checked {
    var filled := if l.maxPps > 0.0 then l.(tokens := Level(l, now), lastRefill := now) else l;
    Check(filled, now)
  }

  function EagerDecisions(l: Limiter, times: seq<nat>): seq<Decision>
    decreases |times|
  {
    if times == [] then []
    else [EagerCheck(l, times[0]).decision] + EagerDecisions(EagerCheck(l, times[0]).next, times[1..])
  }

  /** The eager bucket is the lazy one brought up to date at `now`. */
  ghost predicate UpToDate(eager: Limiter, lazy: Limiter, now: nat) {
    && lazy.lastRefill <= now
    && eager == if lazy.maxPps > 0.0 then lazy.(tokens := Level(lazy, now), lastRefill := now) else lazy
  }

  lemma LevelIsUpToDate(eager: Limiter, lazy: Limiter, was: nat, now: nat)
    requires Sane(lazy) && UpToDate(eager, lazy, was) && was <= now
    ensures Level(eager, now) == Level(lazy, now)
  {
    if lazy.maxPps > 0.0 {
      RefillAdds(lazy.maxPps, was - lazy.lastRefill, now - was);
      RefillGrows(lazy.maxPps, 0, now - was);
    }
  }

  /** Refilling only on `Allow` decides every run exactly like refilling at every check. */
  lemma {:induction false} LazyEqualsEager(eager: Limiter, lazy: Limiter, times: seq<nat>, was: nat)
    requires Sane(lazy) && UpToDate(eager, lazy, was) && Ascending(times, was)
    ensures EagerDecisions(eager, times) == Decisions(lazy, times)
    decreases |times|
  {
    if times == [] {
    } else {
      var now := times[0];
      LevelIsUpToDate(eager, lazy, was, now);
      LevelIsSane(lazy, now);
      CheckKeepsSane(lazy, now);
      assert EagerCheck(eager, now).decision == Check(lazy, now).decision;
      assert UpToDate(EagerCheck(eager, now).next, Check(lazy, now).next, now);
      LazyEqualsEager(EagerCheck(eager, now).next, Check(lazy, now).next, times[1..], now);
    }
  }

  function Kept<T>(s: seq<T>, keep: seq<bool>): seq<T>
    requires |s| == |keep|
  {
    if s == [] then [] else (if keep[0] then [s[0]] else []) + Kept(s[1..], keep[1..])
  }

  /** Erasing any throttled checks from a run changes none of the decisions that remain. */
  lemma {:induction false} ThrottledLeaveNoTrace(l: Limiter, times: seq<nat>, keep: seq<bool>)
    requires |keep| == |times|
    requires forall i :: 0 <= i < |times| && !keep[i] ==> Decisions(l, times)[i] != Allow
    ensures Decisions(l, Kept(times, keep)) == Kept(Decisions(l, times), keep)
    decreases |times|
  {
    if times == [] {
    } else {
      var next, ds := Check(l, times[0]).next, Decisions(l, times);
      assert ds[1..] == Decisions(next, times[1..]);
      forall i | 0 <= i < |times[1..]| && !keep[1..][i] ensures Decisions(next, times[1..])[i] != Allow {
        assert ds[i + 1] == ds[1..][i];
      }
      ThrottledLeaveNoTrace(next, times[1..], keep[1..]);
      if keep[0] {
        assert Kept(times, keep)[1..] == Kept(times[1..], keep[1..]);
      } else {
        assert next == l;
        assert Kept(times, keep) == Kept(times[1..], keep[1..]);
      }
    }
  }
}
