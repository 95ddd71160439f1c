/**
 Headers of the legacy version: a strict relay lets none of them pass, an accepting one treats
 them like any other and counts them.
 */
module RelayLegacy {
  import opened Prelude
  import opened RateLimit
  import opened NoiseFraming
  import opened RelayModel
  import opened RelayRuns

  /** The limiter lets the packet in. */
  predicate Admits(st: RelayState, a: Arrived) {
    |a.bytes| == PACKET_SIZE && Check(st.limiter, a.checkedAt).decision == Allow
  }

  lemma StrictDropsLegacy(x: Sphinx, c: RelayConfig, st: RelayState, a: Arrived)
    requires !c.acceptV2 && IsLegacy(x, a.bytes)
    ensures var done := Process(x, c, st, a);
            && done.outcome == Drop(if Admits(st, a) || |a.bytes| != PACKET_SIZE then Malformed else RateLimited)
            && done.state.queue == st.queue && done.state.v2Accepted == st.v2Accepted
  {
  }

  /**
   Strict mode: in every run no packet with a legacy header passes, and none changes the cache
   or the counter.
   */
  lemma StrictRefusesLegacy(x: Sphinx, c: RelayConfig, st: RelayState, run: seq<Arrived>, i: nat)
    requires !c.acceptV2 && i < |run| && IsLegacy(x, run[i].bytes)
    ensures !Passes(Outcomes(x, c, st, run)[i])
    ensures var was, now := StateAt(x, c, st, run, i), StateAt(x, c, st, run, i + 1);
            now.queue == was.queue && now.v2Accepted == was.v2Accepted
  {
    OutcomesPointwise(x, c, st, run, i);
    StrictDropsLegacy(x, c, StateAt(x, c, st, run, i), run[i]);
  }

  lemma VerifyIgnoresVersion(x: Sphinx, c: RelayConfig, bytes: Bytes, version: nat)
    requires c.acceptV2 && |bytes| == PACKET_SIZE
    ensures Verify(x, c, bytes) == Verify(x.(legacyVersion := version), c, bytes)
  {
  }

  lemma GateIgnoresVersion(x: Sphinx, c: RelayConfig, st: RelayState, a: Arrived, checked: Checked, y: Sphinx,
                           v: Verified)
    requires |a.bytes| == PACKET_SIZE && v == Verify(x, c, a.bytes) == Verify(y, c, a.bytes)
    requires y == x.(legacyVersion := y.legacyVersion)
    ensures var one, other := Gate(x, c, st, a, checked), Gate(y, c, st, a, checked);
            && one.outcome == other.outcome
            && one.state.limiter == other.state.limiter && one.state.queue == other.state.queue
  {
  }

  /** An accepting relay does not look at the version, except to count. */
  lemma VersionIsIgnored(x: Sphinx, c: RelayConfig, st: RelayState, a: Arrived, version: nat)
    requires c.acceptV2
    ensures var one, other := Process(x, c, st, a), Process(x.(legacyVersion := version), c, st, a);
            && one.outcome == other.outcome
            && one.state.limiter == other.state.limiter && one.state.queue == other.state.queue
  {
    if |a.bytes| == PACKET_SIZE {
      VerifyIgnoresVersion(x, c, a.bytes, version);
      GateIgnoresVersion(x, c, st, a, Check(st.limiter, a.checkedAt), x.(legacyVersion := version),
                         Verify(x, c, a.bytes));
    }
  }

  // ----------------------------------------------------------------- the counter

  predicate Counts(x: Sphinx, c: RelayConfig, st: RelayState, a: Arrived) {
    c.acceptV2 && Admits(st, a) && IsLegacy(x, a.bytes)
  }

  lemma StepCounts(x: Sphinx, c: RelayConfig, st: RelayState, a: Arrived)
    ensures Process(x, c, st, a).state.v2Accepted ==
            if Counts(x, c, st, a) then SatAdd(st.v2Accepted, 1) else st.v2Accepted
  {
  }

  /** How many of the first `n` packets have a legacy header that the relay accepts. */
  ghost function LegacyLetIn(x: Sphinx, c: RelayConfig, st: RelayState, run: seq<Arrived>, n: nat): nat
    requires n <= |run|
  {
    if n == 0 then 0
    else
      LegacyLetIn(x, c, st, run, n - 1) + if Counts(x, c, StateAt(x, c, st, run, n - 1), run[n - 1]) then 1 else 0
  }

  /** In every run the counter is the number of accepted legacy headers, up to the largest 64-bit number. */
  lemma {:induction false} CounterCounts(x: Sphinx, c: RelayConfig, st: RelayState, run: seq<Arrived>, n: nat)
    requires n <= |run| && st.v2Accepted < U64_LIMIT
    ensures StateAt(x, c, st, run, n).v2Accepted ==
            Min(st.v2Accepted + LegacyLetIn(x, c, st, run, n), U64_LIMIT - 1)
  {
    if n == 0 {
    } else {
      CounterCounts(x, c, st, run, n - 1);
      StepCounts(x, c, StateAt(x, c, st, run, n - 1), run[n - 1]);
    }
  }
}
