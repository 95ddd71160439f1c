/**
 Packets that leave no trace: which packets can be erased from a run without changing what
 the relay does with the others, and on which relays.
 */
module RelayErasure {
  import opened Prelude
  import opened RateLimit
  import opened RateQuota
  import opened NoiseFraming
  import opened RelayModel
  import opened RelayRuns

  /** The same limiter, or two that never refuse. */
  predicate SameLimits(l: Limiter, m: Limiter) {
    l == m || (Open(l) && Open(m))
  }

  /** Alike in all that a decision looks at: not in the count of legacy headers, nor in what an open limiter counts. */
  predicate SameCore(a: RelayState, b: RelayState) {
    SameLimits(a.limiter, b.limiter) && a.queue == b.queue
  }

  lemma SameLimitsCheck(l: Limiter, m: Limiter, now: nat)
    requires SameLimits(l, m)
    ensures Check(l, now).decision == Check(m, now).decision && SameLimits(Check(l, now).next, Check(m, now).next)
  {
    if l != m {
      OpenStays(l, now);
      OpenStays(m, now);
    }
  }

  lemma GateSeesCore(x: Sphinx, c: RelayConfig, s: RelayState, t: RelayState, a: Arrived, k: Checked, m: Checked)
    requires SameCore(s, t) && |a.bytes| == PACKET_SIZE && k.decision == m.decision && SameLimits(k.next, m.next)
    ensures Gate(x, c, s, a, k).outcome == Gate(x, c, t, a, m).outcome
    ensures SameCore(Gate(x, c, s, a, k).state, Gate(x, c, t, a, m).state)
  {
  }

  lemma ProcessSeesCore(x: Sphinx, c: RelayConfig, s: RelayState, t: RelayState, a: Arrived)
    requires SameCore(s, t)
    ensures Process(x, c, s, a).outcome == Process(x, c, t, a).outcome
    ensures SameCore(Process(x, c, s, a).state, Process(x, c, t, a).state)
  {
    if |a.bytes| == PACKET_SIZE {
      SameLimitsCheck(s.limiter, t.limiter, a.checkedAt);
      GateSeesCore(x, c, s, t, a, Check(s.limiter, a.checkedAt), Check(t.limiter, a.checkedAt));
    }
  }

  /** The erased packets are ones that leave all that decisions look at as it is. */
  ghost predicate ErasesIdle(x: Sphinx, c: RelayConfig, st: RelayState, run: seq<Arrived>, keep: seq<bool>)
    requires |keep| == |run|
    decreases |run|
  {
    run != [] ==>
      && (!keep[0] ==> SameCore(Process(x, c, st, run[0]).state, st))
      && ErasesIdle(x, c, Process(x, c, st, run[0]).state, run[1..], keep[1..])
  }

  lemma {:induction false} ErasureIsInvisible(
    x: Sphinx, c: RelayConfig, s: RelayState, t: RelayState, run: seq<Arrived>, keep: seq<bool>)
    requires |keep| == |run| && SameCore(s, t) && ErasesIdle(x, c, s, run, keep)
    ensures Outcomes(x, c, t, Kept(run, keep)) == Kept(Outcomes(x, c, s, run), keep)
    ensures SameCore(AfterRun(x, c, t, Kept(run, keep)), AfterRun(x, c, s, run))
    decreases |run|
  {
    if run == [] {
    } else {
      var s' := Process(x, c, s, run[0]).state;
      ProcessSeesCore(x, c, s, t, run[0]);
      assert Outcomes(x, c, s, run)[1..] == Outcomes(x, c, s', run[1..]);
      if keep[0] {
        assert Kept(run, keep)[1..] == Kept(run[1..], keep[1..]);
        ErasureIsInvisible(x, c, s', Process(x, c, t, run[0]).state, run[1..], keep[1..]);
      } else {
        assert Kept(run, keep) == Kept(run[1..], keep[1..]);
        ErasureIsInvisible(x, c, s', t, run[1..], keep[1..]);
      }
    }
  }

  predicate Unauthenticated(o: Outcome) {
    o == Drop(Malformed) || o == Drop(BadMac)
  }

  /** A packet that is dropped unauthenticated never got to the replay cache. */
  lemma UnauthenticatedStopsEarly(x: Sphinx, c: RelayConfig, st: RelayState, a: Arrived, checked: Checked)
    requires |a.bytes| == PACKET_SIZE
    ensures var p := Gate(x, c, st, a, checked);
            && (p.state.limiter == st.limiter || p.state.limiter == checked.next)
            && (Unauthenticated(p.outcome) ==> p.state.queue == st.queue)
  {
    var v := Verify(x, c, a.bytes);
    if v.Authentic? {
      assert !Unauthenticated(Route(x, c, v, a));
    }
  }

  lemma UnauthenticatedIsIdle(x: Sphinx, c: RelayConfig, st: RelayState, a: Arrived)
    requires Open(st.limiter) || Closed(st.limiter)
    ensures var p := Process(x, c, st, a);
            && (Open(p.state.limiter) || Closed(p.state.limiter))
            && (Unauthenticated(p.outcome) ==> SameCore(p.state, st))
  {
    if |a.bytes| == PACKET_SIZE {
      var checked := Check(st.limiter, a.checkedAt);
      if Open(st.limiter) {
        OpenStays(st.limiter, a.checkedAt);
      }
      UnauthenticatedStopsEarly(x, c, st, a, checked);
    }
  }

  /** Only packets that are dropped as malformed or for a bad MAC are erased. */
  ghost predicate ErasesForgeries(x: Sphinx, c: RelayConfig, st: RelayState, run: seq<Arrived>, keep: seq<bool>)
    requires |keep| == |run|
  {
    forall i :: 0 <= i < |run| && !keep[i] ==> Unauthenticated(Outcomes(x, c, st, run)[i])
  }

  lemma {:induction false} UnauthenticatedAreIdle(x: Sphinx, c: RelayConfig, st: RelayState, run: seq<Arrived>,
                                                  keep: seq<bool>)
    requires Open(st.limiter) || Closed(st.limiter)
    requires |keep| == |run| && ErasesForgeries(x, c, st, run, keep)
    ensures ErasesIdle(x, c, st, run, keep)
    decreases |run|
  {
    if run == [] {
    } else {
      UnauthenticatedIsIdle(x, c, st, run[0]);
      var st', os := Process(x, c, st, run[0]).state, Outcomes(x, c, st, run);
      assert os[1..] == Outcomes(x, c, st', run[1..]);
      forall i | 0 <= i < |run[1..]| && !keep[1..][i] ensures Unauthenticated(os[1..][i]) {
        assert os[1..][i] == os[i + 1];
      }
      UnauthenticatedAreIdle(x, c, st', run[1..], keep[1..]);
    }
  }

  /**
   Non-interference: on a relay whose limiter refuses nothing (or everything), erasing from any
   run any packets that are dropped as malformed or for a bad MAC leaves every other outcome and
   the replay cache unchanged. A forged packet can neither take a cache slot nor spend a γ.
   */
  lemma ForgeriesLeaveNoTrace(x: Sphinx, c: RelayConfig, st: RelayState, run: seq<Arrived>, keep: seq<bool>)
    requires Open(st.limiter) || Closed(st.limiter)
    requires |keep| == |run| && ErasesForgeries(x, c, st, run, keep)
    ensures Outcomes(x, c, st, Kept(run, keep)) == Kept(Outcomes(x, c, st, run), keep)
    ensures AfterRun(x, c, st, Kept(run, keep)).queue == AfterRun(x, c, st, run).queue
  {
    UnauthenticatedAreIdle(x, c, st, run, keep);
    ErasureIsInvisible(x, c, st, st, run, keep);
  }

  /** Packets that never get past the limiter: of the wrong size, or shed by it. */
  predicate Shed(a: Arrived, o: Outcome) {
    |a.bytes| != PACKET_SIZE || o == Drop(RateLimited)
  }

  lemma GateShedIsIdle(x: Sphinx, c: RelayConfig, st: RelayState, a: Arrived, checked: Checked)
    requires |a.bytes| == PACKET_SIZE
    ensures Gate(x, c, st, a, checked).outcome == Drop(RateLimited) ==> SameCore(Gate(x, c, st, a, checked).state, st)
  {
    var v := Verify(x, c, a.bytes);
    if v.Authentic? {
      assert Route(x, c, v, a) != Drop(RateLimited);
    }
  }

  lemma ShedIsIdle(x: Sphinx, c: RelayConfig, st: RelayState, a: Arrived)
    requires Shed(a, Process(x, c, st, a).outcome)
    ensures SameCore(Process(x, c, st, a).state, st)
  {
    if |a.bytes| == PACKET_SIZE {
      GateShedIsIdle(x, c, st, a, Check(st.limiter, a.checkedAt));
    }
  }

  lemma {:induction false} ShedAreIdle(x: Sphinx, c: RelayConfig, st: RelayState, run: seq<Arrived>, keep: seq<bool>)
    requires |keep| == |run|
    requires forall i :: 0 <= i < |run| && !keep[i] ==> Shed(run[i], Outcomes(x, c, st, run)[i])
    ensures ErasesIdle(x, c, st, run, keep)
    decreases |run|
  {
    if run == [] {
    } else {
      var st', os := Process(x, c, st, run[0]).state, Outcomes(x, c, st, run);
      if !keep[0] {
        assert os[0] == Process(x, c, st, run[0]).outcome;
        ShedIsIdle(x, c, st, run[0]);
      }
      assert os[1..] == Outcomes(x, c, st', run[1..]);
      forall i | 0 <= i < |run[1..]| && !keep[1..][i] ensures Shed(run[1..][i], os[1..][i]) {
        assert os[1..][i] == os[i + 1] && run[1..][i] == run[i + 1];
      }
      ShedAreIdle(x, c, st', run[1..], keep[1..]);
    }
  }

  /** With any limiter, packets of the wrong size and shed packets can be erased without a trace. */
  lemma ShedLeaveNoTrace(x: Sphinx, c: RelayConfig, st: RelayState, run: seq<Arrived>, keep: seq<bool>)
    requires |keep| == |run|
    requires forall i :: 0 <= i < |run| && !keep[i] ==> Shed(run[i], Outcomes(x, c, st, run)[i])
    ensures Outcomes(x, c, st, Kept(run, keep)) == Kept(Outcomes(x, c, st, run), keep)
    ensures AfterRun(x, c, st, Kept(run, keep)).queue == AfterRun(x, c, st, run).queue
  {
    ShedAreIdle(x, c, st, run, keep);
    ErasureIsInvisible(x, c, st, st, run, keep);
  }

  /** A forged packet of the right size meets only the limiter. */
  lemma ForgedMeetsLimiter(x: Sphinx, c: RelayConfig, st: RelayState, a: Arrived, checked: Checked)
    requires |a.bytes| == PACKET_SIZE && Verify(x, c, a.bytes).Unverified?
    ensures var p := Gate(x, c, st, a, checked);
            if checked.decision == Allow then Unauthenticated(p.outcome) && p.state.limiter == checked.next
            else p.outcome == Drop(RateLimited)
  {
  }

  lemma AdmittedIsNotShed(x: Sphinx, c: RelayConfig, st: RelayState, a: Arrived, checked: Checked)
    requires |a.bytes| == PACKET_SIZE && checked.decision == Allow
    ensures Gate(x, c, st, a, checked).outcome != Drop(RateLimited)
  {
    var v := Verify(x, c, a.bytes);
    if v.Authentic? {
      assert Route(x, c, v, a) != Drop(RateLimited);
    }
  }

  /** At one packet in two seconds a full bucket is good for one packet, and for no second one at once. */
  lemma OneToken(at: nat)
    ensures var l := NewLimiter(0.5, 0, at, at);
            Check(l, at).decision == Allow && Check(Check(l, at).next, at).decision == RateThrottled
  {
  }

  lemma TwoOutcomes(step: StepFunction, st: RelayState, a: Arrived, b: Arrived)
    ensures Trace(step, st, [a, b]) == [step(st, a).outcome, step(step(st, a).state, b).outcome]
    ensures Trace(step, st, [b]) == [step(st, b).outcome]
  {
    assert [a, b][1..] == [b] && [b][1..] == [];
  }

  /**
   With a limiter the stronger erasure fails, because the limiter is asked before the MAC is
   checked: at one packet in two seconds, a forgery of the right size spends the token that
   the packet after it needs.
   */
  lemma ForgeriesSpendTokens(x: Sphinx, c: RelayConfig, forged: Arrived, other: Arrived)
    requires |forged.bytes| == PACKET_SIZE && |other.bytes| == PACKET_SIZE && Verify(x, c, forged.bytes).Unverified?
    requires forged.checkedAt == other.checkedAt
    ensures var st := RelayState(NewLimiter(0.5, 0, forged.checkedAt, forged.checkedAt), [], 0);
            && Unauthenticated(Outcomes(x, c, st, [forged, other])[0])
            && Outcomes(x, c, st, [forged, other])[1] == Drop(RateLimited)
            && Outcomes(x, c, st, [other])[0] != Drop(RateLimited)
  {
    var at := forged.checkedAt;
    var st := RelayState(NewLimiter(0.5, 0, at, at), [], 0);
    TwoOutcomes(StepOf(x, c), st, forged, other);
    OneToken(at);
    ForgedMeetsLimiter(x, c, st, forged, Check(st.limiter, at));
    AdmittedIsNotShed(x, c, st, other, Check(st.limiter, at));
  }

  // ------------------------------------------------------------ exactly when

  /** Forgeries can be erased from every run. */
  ghost predicate ForgeriesInvisible(x: Sphinx, c: RelayConfig, st: RelayState) {
    forall run: seq<Arrived>, keep: seq<bool> :: |keep| == |run| && ErasesForgeries(x, c, st, run, keep) ==>
      Outcomes(x, c, st, Kept(run, keep)) == Kept(Outcomes(x, c, st, run), keep)
  }

  /** The limiter after `n` checks at one instant. */
  function LimiterAt(l: Limiter, now: nat, n: nat): Limiter {
    if n == 0 then l else Check(LimiterAt(l, now, n - 1), now).next
  }

  /** If the first `n` checks at one instant are all allowed, they are all counted. */
  lemma {:induction false} AllAllowed(l: Limiter, now: nat, n: nat, k: nat)
    requires k <= n && forall i :: k <= i < n ==> Check(LimiterAt(l, now, i), now).decision == Allow
    ensures AllowedIn(LimiterAt(l, now, k), Copies(now, n - k), now, now) == n - k
    decreases n - k
  {
    if k < n {
      AllAllowed(l, now, n, k + 1);
      assert Copies(now, n - k)[1..] == Copies(now, n - k - 1);
    }
  }

  lemma FirstIsAllowed(maxPps: real, budget: u64, refilled: nat, begun: nat, now: nat)
    requires !TooSmall(NewLimiter(maxPps, budget, refilled, begun))
    ensures Check(NewLimiter(maxPps, budget, refilled, begun), now).decision == Allow
  {
    var l := NewLimiter(maxPps, budget, refilled, begun);
    RefillGrows(l.maxPps, 0, Monus(now, refilled));
  }

  /** A number of packets that can not all pass at one instant. */
  lemma MoreThanFits(l: Limiter, now: nat) returns (n: nat)
    requires Sane(l) && l.used == 0 && !Open(l)
    ensures AllowedIn(l, Copies(now, n), now, now) < n
  {
    if l.maxPps > 0.0 {
      n := (2.0 * l.maxPps).Floor + 1;
      BucketBound(l, Copies(now, n), now, now, now);
    } else {
      n := 2 * l.budget + 1;
      QuotaBound(l, Copies(now, n), now, now, now);
    }
  }

  /** A new limiter that is neither open nor too small lets some packets through at one instant, and then refuses. */
  lemma RefusesAtLast(maxPps: real, budget: u64, refilled: nat, begun: nat, now: nat) returns (m: nat)
    requires var l := NewLimiter(maxPps, budget, refilled, begun); !Open(l) && !TooSmall(l)
    ensures var l := NewLimiter(maxPps, budget, refilled, begun);
            && m >= 1 && Check(LimiterAt(l, now, m), now).decision != Allow
            && forall i :: 0 <= i < m ==> Check(LimiterAt(l, now, i), now).decision == Allow
  {
    var l := NewLimiter(maxPps, budget, refilled, begun);
    var n := MoreThanFits(l, now);
    m := 0;
    while m < n && Check(LimiterAt(l, now, m), now).decision == Allow
      invariant m <= n && forall i :: 0 <= i < m ==> Check(LimiterAt(l, now, i), now).decision == Allow
    {
      m := m + 1;
    }
    if m == n {
      AllAllowed(l, now, n, 0);
      assert false;
    }
    FirstIsAllowed(maxPps, budget, refilled, begun, now);
  }

  lemma {:induction false} KeptAll<T>(s: seq<T>, keep: seq<bool>)
    requires |s| == |keep| && forall i :: 0 <= i < |keep| ==> keep[i]
    ensures Kept(s, keep) == s
  {
    if s == [] {
    } else {
      KeptAll(s[1..], keep[1..]);
      assert s == [s[0]] + s[1..];
    }
  }

  lemma KeptAllButFirst<T>(s: seq<T>, keep: seq<bool>)
    requires 1 <= |s| == |keep| && !keep[0] && forall i :: 1 <= i < |keep| ==> keep[i]
    ensures Kept(s, keep) == s[1..]
  {
    KeptAll(s[1..], keep[1..]);
  }

  lemma {:induction false} CopiesReachLimiter(x: Sphinx, c: RelayConfig, st: RelayState, a: Arrived, n: nat, i: nat)
    requires |a.bytes| == PACKET_SIZE && Verify(x, c, a.bytes).Unverified? && i <= n
    requires forall k :: 0 <= k < i ==> Check(LimiterAt(st.limiter, a.checkedAt, k), a.checkedAt).decision == Allow
    ensures StateAt(x, c, st, Copies(a, n), i).limiter == LimiterAt(st.limiter, a.checkedAt, i)
  {
    if i == 0 {
    } else {
      CopiesReachLimiter(x, c, st, a, n, i - 1);
      var before := StateAt(x, c, st, Copies(a, n), i - 1);
      ForgedMeetsLimiter(x, c, before, a, Check(before.limiter, a.checkedAt));
    }
  }

  lemma CopyOutcome(x: Sphinx, c: RelayConfig, st: RelayState, a: Arrived, n: nat, i: nat)
    requires |a.bytes| == PACKET_SIZE && Verify(x, c, a.bytes).Unverified? && i < n
    requires forall k :: 0 <= k < i ==> Check(LimiterAt(st.limiter, a.checkedAt, k), a.checkedAt).decision == Allow
    ensures var o := Outcomes(x, c, st, Copies(a, n))[i];
            if Check(LimiterAt(st.limiter, a.checkedAt, i), a.checkedAt).decision == Allow then Unauthenticated(o)
            else o == Drop(RateLimited)
  {
    CopiesReachLimiter(x, c, st, a, n, i);
    OutcomesPointwise(x, c, st, Copies(a, n), i);
    var before := StateAt(x, c, st, Copies(a, n), i);
    ForgedMeetsLimiter(x, c, before, a, Check(before.limiter, a.checkedAt));
  }

  /** Where a limiter admits `m` packets and then refuses, erasing the first forgery lets the last one through. */
  lemma ForgeriesShow(x: Sphinx, c: RelayConfig, st: RelayState, a: Arrived, m: nat)
    requires |a.bytes| == PACKET_SIZE && Verify(x, c, a.bytes).Unverified? && m >= 1
    requires forall k :: 0 <= k < m ==> Check(LimiterAt(st.limiter, a.checkedAt, k), a.checkedAt).decision == Allow
    requires Check(LimiterAt(st.limiter, a.checkedAt, m), a.checkedAt).decision != Allow
    ensures !ForgeriesInvisible(x, c, st)
  {
    var run, keep := Copies(a, m + 1), seq(m + 1, i => i != 0);
    var os := Outcomes(x, c, st, run);
    CopyOutcome(x, c, st, a, m + 1, 0);
    CopyOutcome(x, c, st, a, m + 1, m);
    CopyOutcome(x, c, st, a, m, m - 1);
    KeptAllButFirst(run, keep);
    KeptAllButFirst(os, keep);
    assert run[1..] == Copies(a, m);
    assert ErasesForgeries(x, c, st, run, keep);
    assert Outcomes(x, c, st, Kept(run, keep))[m - 1] != Kept(os, keep)[m - 1];
  }

  /**
   The exact condition. On a relay with a new limiter, and if there is a forged packet of the
   right size at all, forgeries can be erased from every run if and only if the limiter refuses
   nothing or lets nothing through, which its configuration tells.
   */
  lemma ForgeriesInvisibleExactly(
    x: Sphinx, c: RelayConfig, st: RelayState, forged: Bytes, maxPps: real, budget: u64, refilled: nat, begun: nat)
    requires |forged| == PACKET_SIZE && Verify(x, c, forged).Unverified?
    requires st.limiter == NewLimiter(maxPps, budget, refilled, begun)
    ensures ForgeriesInvisible(x, c, st) <==> Open(st.limiter) || TooSmall(st.limiter)
  {
    if Open(st.limiter) || TooSmall(st.limiter) {
      if TooSmall(st.limiter) {
        TooSmallIsClosed(st.limiter);
      }
      forall run: seq<Arrived>, keep: seq<bool> | |keep| == |run| && ErasesForgeries(x, c, st, run, keep)
        ensures Outcomes(x, c, st, Kept(run, keep)) == Kept(Outcomes(x, c, st, run), keep)
      {
        ForgeriesLeaveNoTrace(x, c, st, run, keep);
      }
    } else {
      var m := RefusesAtLast(maxPps, budget, refilled, begun, begun);
      ForgeriesShow(x, c, st, Arrived(forged, begun, begun, 0), m);
    }
  }
}
