/**
 When the byte quota bounds every interval of 24 hours, as a rolling quota would. The quota's
 own windows are fixed, so a run can spend one budget at the end of a window and another at the
 start of the next; whether it can spend more than one within 24 hours depends on the rate.
 */
module RollingQuota {
  import opened Prelude
  import opened RateLimit

  /** No run since the limiter began carries more than the budget in any interval of 24 hours. */
  ghost predicate Rolling(l: Limiter) {
    forall times: seq<nat>, s: nat, t: nat :: Ascending(times, l.windowStart) && s <= t <= s + QUOTA_WINDOW ==>
      2064 * AllowedIn(l, times, s, t) <= l.budget
  }

  /** The most packets that the bucket lets through in 24 hours: two seconds' worth at once, and the refill. */
  function DailyPackets(maxPps: real): int {
    (86402.0 * maxPps).Floor
  }

  // ----------------------------------------------------------- runs without refusal

  ghost predicate AllPass(l: Limiter, times: seq<nat>)
    decreases |times|
  {
    times != [] ==> Check(l, times[0]).decision == Allow && AllPass(Check(l, times[0]).next, times[1..])
  }

  lemma {:induction false} AllPassCount(l: Limiter, times: seq<nat>, s: nat, t: nat)
    requires AllPass(l, times) && forall i :: 0 <= i < |times| ==> s <= times[i] <= t
    ensures AllowedIn(l, times, s, t) == |times|
    decreases |times|
  {
    if times == [] {
    } else {
      AllPassCount(Check(l, times[0]).next, times[1..], s, t);
    }
  }

  lemma {:induction false} AllPassConcat(l: Limiter, a: seq<nat>, b: seq<nat>)
    requires AllPass(l, a) && AllPass(AfterChecks(l, a), b)
    ensures AllPass(l, a + b)
    decreases |a|
  {
    if a == [] {
      assert a + b == b;
    } else {
      assert (a + b)[1..] == a[1..] + b;
      AllPassConcat(Check(l, a[0]).next, a[1..], b);
    }
  }

  /** The quota has room for `need` more packets at `x`. */
  predicate Room(l: Limiter, x: nat, need: nat) {
    0 < l.budget < U64_LIMIT - 1 && UsedAt(l, x) + WIRE_BYTES_PER_PACKET * need <= l.budget
  }

  lemma RoomLater(l: Limiter, x: nat, y: nat, need: nat)
    requires Room(l, x, need) && x <= y
    ensures Room(l, y, need)
  {
  }

  /** With room and a token a packet passes, and there is room for one fewer. */
  lemma PassWithRoom(l: Limiter, x: nat, need: nat)
    requires Sane(l) && Room(l, x, need) && need >= 1 && (l.maxPps > 0.0 ==> Level(l, x) >= 1.0)
    ensures var n := Check(l, x).next;
            && Check(l, x).decision == Allow && Sane(n) && n.maxPps == l.maxPps && n.budget == l.budget
            && Room(n, x, need - 1) && n.windowStart == (if Reopens(l, x) then x else l.windowStart)
            && (l.maxPps > 0.0 ==> n.lastRefill == x && Level(n, x) == Level(l, x) - 1.0)
  {
    CheckKeepsSane(l, x);
  }

  /** Packets at one instant, as many as there are room and tokens for. */
  lemma {:induction false} SpendAt(l: Limiter, x: nat, need: nat)
    requires Sane(l) && Room(l, x, need) && (l.maxPps > 0.0 ==> Level(l, x) >= need as real)
    ensures var n := AfterChecks(l, Copies<nat>(x, need));
            && AllPass(l, Copies<nat>(x, need)) && Sane(n) && n.maxPps == l.maxPps && n.budget == l.budget
            && (!Reopens(l, x) ==> n.windowStart == l.windowStart)
            && (l.maxPps > 0.0 && need > 0 ==> n.lastRefill == x && Level(n, x) == Level(l, x) - need as real)
    decreases need
  {
    if need == 0 {
    } else {
      PassWithRoom(l, x, need);
      SpendAt(Check(l, x).next, x, need - 1);
      assert Copies<nat>(x, need)[1..] == Copies<nat>(x, need - 1);
    }
  }

  // ------------------------------------------------------------ draining the bucket

  /** From this rate on, a bucket that holds less than a token can not run over within a nanosecond. */
  const STEADY: real := 0.50001

  lemma LevelGrows(l: Limiter, a: nat, b: nat)
    requires Sane(l) && a <= b
    ensures Level(l, a) <= Level(l, b)
  {
    RefillGrows(l.maxPps, Monus(a, l.lastRefill), Monus(b, l.lastRefill));
  }

  /** While it holds less than a token, the bucket loses nothing of its refill. */
  lemma LevelNext(l: Limiter, x: nat)
    requires Sane(l) && l.maxPps >= STEADY && l.lastRefill <= x && Level(l, x) < 1.0
    ensures Level(l, x + 1) == Level(l, x) + Refill(l.maxPps, 1)
  {
    RefillAdds(l.maxPps, x - l.lastRefill, 1);
    assert Refill(l.maxPps, 1) == l.maxPps / SECOND as real;
  }

  /** Sending whenever there is a token gets out of the bucket all that was in it and came in until `end`. */
  lemma {:induction false} Drain(l: Limiter, x: nat, end: nat, need: nat) returns (times: seq<nat>)
    requires Sane(l) && l.maxPps >= STEADY && l.lastRefill <= x <= end && Room(l, x, need)
    requires Level(l, x) + Refill(l.maxPps, end - x) >= need as real
    ensures |times| == need && Ascending(times, x) && AllPass(l, times)
    ensures forall i :: 0 <= i < need ==> times[i] <= end
    decreases end - x, need
  {
    if need == 0 {
      times := [];
    } else if Level(l, x) >= 1.0 {
      PassWithRoom(l, x, need);
      var rest := Drain(Check(l, x).next, x, end, need - 1);
      times := [x] + rest;
    } else {
      RefillGrows(l.maxPps, 0, end - x);
      assert end > x;
      LevelNext(l, x);
      RefillAdds(l.maxPps, 1, end - x - 1);
      RoomLater(l, x, x + 1, need);
      times := Drain(l, x + 1, end, need);
    }
  }

  /** In two seconds the bucket fills up. */
  lemma TwoSecondsFill(l: Limiter, x: nat)
    requires Sane(l) && l.lastRefill <= x
    ensures Level(l, x + 2 * SECOND) == 2.0 * l.maxPps
  {
    RefillAdds(l.maxPps, x - l.lastRefill, 2 * SECOND);
    RefillGrows(l.maxPps, 0, x - l.lastRefill);
    RefillFormula(l.maxPps, 2 * SECOND);
  }

  /** At one packet in two seconds or more, a packet every two seconds passes. */
  lemma {:induction false} Pace(l: Limiter, x: nat, need: nat) returns (times: seq<nat>)
    requires Sane(l) && l.maxPps >= 0.5 && Level(l, x) >= 1.0 && Room(l, x, need)
    ensures |times| == need && Ascending(times, x) && AllPass(l, times)
    ensures forall i :: 0 <= i < need ==> times[i] <= x + 2 * SECOND * (need - 1)
    decreases need
  {
    if need == 0 {
      times := [];
    } else {
      var next, y := Check(l, x).next, x + 2 * SECOND;
      PassWithRoom(l, x, need);
      RoomLater(next, x, y, need - 1);
      TwoSecondsFill(next, x);
      var rest := Pace(next, y, need - 1);
      times := [x] + rest;
    }
  }

  // ----------------------------------------------------------- across the boundary

  /** One nanosecond before the first window of a limiter that began at `begun` is over. */
  function Eve(begun: nat): nat {
    begun + QUOTA_WINDOW - 1
  }

  lemma NewIsFull(maxPps: real, budget: u64, refilled: nat, begun: nat, x: nat)
    ensures var l := NewLimiter(maxPps, budget, refilled, begun);
            Sane(l) && Level(l, x) == 2.0 * l.maxPps
  {
    var l := NewLimiter(maxPps, budget, refilled, begun);
    RefillGrows(l.maxPps, 0, Monus(x, refilled));
  }

  /** `a` packets on the eve, and what passes after the window has restarted. */
  lemma AcrossBoundary(l: Limiter, s: nat, a: nat, later: seq<nat>, t: nat)
    requires AllPass(l, Copies<nat>(s, a)) && AllPass(AfterChecks(l, Copies<nat>(s, a)), later)
    requires l.windowStart <= s <= t && Ascending(later, s) && forall i :: 0 <= i < |later| ==> later[i] <= t
    ensures var times := Copies<nat>(s, a) + later;
            Ascending(times, l.windowStart) && AllowedIn(l, times, s, t) == a + |later|
  {
    AllPassConcat(l, Copies<nat>(s, a), later);
    AllPassCount(l, Copies<nat>(s, a) + later, s, t);
  }

  /** What a limiter is like after `a` packets on the eve: a moment later its quota is as good as new. */
  lemma AfterEve(maxPps: real, budget: u64, refilled: nat, begun: nat, a: nat, need: nat)
    requires 0 < budget < U64_LIMIT - 1 && 1 <= a && WIRE_BYTES_PER_PACKET * a <= budget
    requires WIRE_BYTES_PER_PACKET * need <= budget
    requires maxPps > 0.0 ==> a as real <= 2.0 * maxPps
    ensures var l, s := NewLimiter(maxPps, budget, refilled, begun), Eve(begun);
            var n := AfterChecks(l, Copies<nat>(s, a));
            && AllPass(l, Copies<nat>(s, a)) && Sane(n) && n.maxPps == l.maxPps && n.budget == budget
            && (forall y :: y > s ==> Room(n, y, need))
            && (maxPps > 0.0 ==> n.lastRefill == s && Level(n, s) == 2.0 * maxPps - a as real)
  {
    NewIsFull(maxPps, budget, refilled, begun, Eve(begun));
    SpendAt(NewLimiter(maxPps, budget, refilled, begun), Eve(begun), a);
  }

  /** The run `times` carries more than the budget from `s` on, within 24 hours. */
  ghost predicate Exceeds(l: Limiter, times: seq<nat>, s: nat) {
    && Ascending(times, l.windowStart)
    && WIRE_BYTES_PER_PACKET * AllowedIn(l, times, s, s + QUOTA_WINDOW) > l.budget
  }

  lemma ExceededIsNotRolling(l: Limiter, times: seq<nat>, s: nat)
    requires Exceeds(l, times, s)
    ensures !Rolling(l)
  {
  }

  /** Without a rate: a whole budget on the eve, and one packet more a nanosecond later. */
  lemma UnratedExceeds(maxPps: real, budget: u64, refilled: nat, begun: nat)
    requires maxPps <= 0.0 && WIRE_BYTES_PER_PACKET <= budget < U64_LIMIT - 1
    ensures !Rolling(NewLimiter(maxPps, budget, refilled, begun))
  {
    var l, s, k := NewLimiter(maxPps, budget, refilled, begun), Eve(begun), budget / WIRE_BYTES_PER_PACKET;
    AfterEve(maxPps, budget, refilled, begun, k, 1);
    SpendAt(AfterChecks(l, Copies<nat>(s, k)), s + 1, 1);
    AcrossBoundary(l, s, k, Copies<nat>(s + 1, 1), s + QUOTA_WINDOW);
    ExceededIsNotRolling(l, Copies<nat>(s, k) + Copies<nat>(s + 1, 1), s);
  }

  lemma RefillDay(maxPps: real)
    ensures Refill(maxPps, QUOTA_WINDOW) == 86400.0 * maxPps
  {
    RefillFormula(maxPps, QUOTA_WINDOW);
  }

  lemma EnoughDripsIn(n: Limiter, s: nat, a: nat, k: nat)
    requires Sane(n) && n.maxPps >= STEADY && n.lastRefill == s && a == Min(k, (2.0 * n.maxPps).Floor)
    requires Level(n, s) == 2.0 * n.maxPps - a as real && k + 1 <= DailyPackets(n.maxPps)
    ensures Level(n, s + 1) + Refill(n.maxPps, QUOTA_WINDOW - 1) >= (k + 1 - a) as real
  {
    RefillGrows(n.maxPps, 0, QUOTA_WINDOW - 1);
    if Level(n, s) < 1.0 {
      LevelNext(n, s);
      RefillAdds(n.maxPps, 1, QUOTA_WINDOW - 1);
      RefillDay(n.maxPps);
    } else {
      LevelGrows(n, s, s + 1);
    }
  }

  /** At a steady rate: as much as the bucket holds on the eve, and then every token as it drips in. */
  lemma SteadyExceeds(maxPps: real, budget: u64, refilled: nat, begun: nat)
    requires maxPps >= STEADY && WIRE_BYTES_PER_PACKET <= budget < U64_LIMIT - 1
    requires WIRE_BYTES_PER_PACKET * DailyPackets(maxPps) > budget
    ensures !Rolling(NewLimiter(maxPps, budget, refilled, begun))
  {
    var l, s, k := NewLimiter(maxPps, budget, refilled, begun), Eve(begun), budget / WIRE_BYTES_PER_PACKET;
    var a := Min(k, (2.0 * maxPps).Floor);
    AfterEve(maxPps, budget, refilled, begun, a, k + 1 - a);
    var n := AfterChecks(l, Copies<nat>(s, a));
    EnoughDripsIn(n, s, a, k);
    var later := Drain(n, s + 1, s + QUOTA_WINDOW, k + 1 - a);
    AcrossBoundary(l, s, a, later, s + QUOTA_WINDOW);
    ExceededIsNotRolling(l, Copies<nat>(s, a) + later, s);
  }

  /** At hardly more than one packet in two seconds: one on the eve, and one every two seconds. */
  lemma SlowExceeds(maxPps: real, budget: u64, refilled: nat, begun: nat)
    requires 0.5 <= maxPps < STEADY && WIRE_BYTES_PER_PACKET <= budget < U64_LIMIT - 1
    requires WIRE_BYTES_PER_PACKET * DailyPackets(maxPps) > budget
    ensures !Rolling(NewLimiter(maxPps, budget, refilled, begun))
  {
    var l, s, k := NewLimiter(maxPps, budget, refilled, begun), Eve(begun), budget / WIRE_BYTES_PER_PACKET;
    assert k + 1 <= DailyPackets(maxPps) <= 43201;
    AfterEve(maxPps, budget, refilled, begun, 1, k);
    var n := AfterChecks(l, Copies<nat>(s, 1));
    TwoSecondsFill(n, s);
    var later := Pace(n, s + 2 * SECOND, k);
    AcrossBoundary(l, s, 1, later, s + QUOTA_WINDOW);
    ExceededIsNotRolling(l, Copies<nat>(s, 1) + later, s);
  }

  // ---------------------------------------------------------------- exactly when

  lemma SlowEnough(l: Limiter, times: seq<nat>, s: nat, t: nat)
    requires Sane(l) && l.maxPps > 0.0 && Ascending(times, l.windowStart) && s <= t <= s + QUOTA_WINDOW
    ensures AllowedIn(l, times, s, t) <= DailyPackets(l.maxPps)
  {
    BucketBound(l, times, l.windowStart, s, t);
    RefillGrows(l.maxPps, t - s, QUOTA_WINDOW);
    RefillDay(l.maxPps);
  }

  /**
   The exact condition: a new limiter bounds every interval of 24 hours by its budget if and only
   if it lets nothing through, or its rate alone keeps a day within the budget.
   */
  lemma RollingExactly(maxPps: real, budget: u64, refilled: nat, begun: nat)
    requires 0 < budget < U64_LIMIT - 1
    ensures var l := NewLimiter(maxPps, budget, refilled, begun);
            Rolling(l)
            <==> TooSmall(l) || (maxPps > 0.0 && 2064 * (86402.0 * maxPps).Floor <= budget)
  {
    var l := NewLimiter(maxPps, budget, refilled, begun);
    NewIsFull(maxPps, budget, refilled, begun, begun);
    if TooSmall(l) {
      TooSmallIsClosed(l);
      forall times: seq<nat>, s: nat, t: nat ensures AllowedIn(l, times, s, t) == 0 {
        ClosedAdmitsNone(l, times, s, t);
      }
    } else if maxPps <= 0.0 {
      UnratedExceeds(maxPps, budget, refilled, begun);
    } else if WIRE_BYTES_PER_PACKET * DailyPackets(maxPps) <= budget {
      forall times: seq<nat>, s: nat, t: nat | Ascending(times, l.windowStart) && s <= t <= s + QUOTA_WINDOW
        ensures AllowedIn(l, times, s, t) <= DailyPackets(maxPps)
      {
        SlowEnough(l, times, s, t);
      }
    } else if maxPps >= STEADY {
      SteadyExceeds(maxPps, budget, refilled, begun);
    } else {
      SlowExceeds(maxPps, budget, refilled, begun);
    }
  }

  /**
   The bound of twice the budget is tight: without a rate and for every budget of `k` packets,
   `k` packets on the eve and `k` a nanosecond later carry exactly twice the budget.
   */
  lemma TwiceTheBudgetHappens(maxPps: real, k: nat, refilled: nat, begun: nat)
    requires maxPps <= 0.0 && k >= 1 && WIRE_BYTES_PER_PACKET * k < U64_LIMIT - 1
    ensures var l, s := NewLimiter(maxPps, WIRE_BYTES_PER_PACKET * k, refilled, begun), Eve(begun);
            var times := Copies<nat>(s, k) + Copies<nat>(s + 1, k);
            && Ascending(times, begun)
            && WIRE_BYTES_PER_PACKET * AllowedIn(l, times, s, s + 1) == 2 * l.budget
  {
    var l, s := NewLimiter(maxPps, WIRE_BYTES_PER_PACKET * k, refilled, begun), Eve(begun);
    AfterEve(maxPps, l.budget, refilled, begun, k, k);
    SpendAt(AfterChecks(l, Copies<nat>(s, k)), s + 1, k);
    AcrossBoundary(l, s, k, Copies<nat>(s + 1, k), s + 1);
  }
}
