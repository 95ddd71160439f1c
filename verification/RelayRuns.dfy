/**
 The relay over whole runs: a γ passes twice only after its lifetime or after the cache has
 been filled by others.
 */
module RelayRuns {
  import opened Prelude
  import opened Runs
  import opened ReplayQueue
  import opened ReplayRestore
  import opened RateLimit
  import opened NoiseFraming
  import opened RelayModel

  // ------------------------------------------------------ runs of any step function

  type StepFunction = (RelayState, Arrived) -> Processed

  function Trace(step: StepFunction, st: RelayState, run: seq<Arrived>): (os: seq<Outcome>)
    ensures |os| == |run|
    decreases |run|
  {
    if run == [] then [] else [step(st, run[0]).outcome] + Trace(step, step(st, run[0]).state, run[1..])
  }

  function Final(step: StepFunction, st: RelayState, run: seq<Arrived>): RelayState
    decreases |run|
  {
    if run == [] then st else Final(step, step(st, run[0]).state, run[1..])
  }

  function StateStep(step: StepFunction): (RelayState, Arrived) -> RelayState {
    (st: RelayState, a: Arrived) => step(st, a).state
  }

  /** Looking at one packet of a run gives the outcome of the run at that place. */
  lemma {:induction false} TracePointwise(step: StepFunction, st: RelayState, run: seq<Arrived>, i: nat)
    requires i < |run|
    ensures Trace(step, st, run)[i] == step(Along(StateStep(step), st, run, i), run[i]).outcome
    decreases |run|
  {
    if i == 0 {
    } else {
      TracePointwise(step, step(st, run[0]).state, run[1..], i - 1);
      AlongTail(StateStep(step), st, run, i);
    }
  }

  // --------------------------------------------------------------- runs of a relay

  function StepOf(x: Sphinx, c: RelayConfig): StepFunction {
    (st: RelayState, a: Arrived) => Process(x, c, st, a)
  }

  function Outcomes(x: Sphinx, c: RelayConfig, st: RelayState, run: seq<Arrived>): (os: seq<Outcome>)
    ensures |os| == |run|
  {
    Trace(StepOf(x, c), st, run)
  }

  function AfterRun(x: Sphinx, c: RelayConfig, st: RelayState, run: seq<Arrived>): RelayState {
    Final(StepOf(x, c), st, run)
  }

  function StateAt(x: Sphinx, c: RelayConfig, st: RelayState, run: seq<Arrived>, i: nat): RelayState
    requires i <= |run|
  {
    Along(StateStep(StepOf(x, c)), st, run, i)
  }

  function OutcomeAt(x: Sphinx, c: RelayConfig, st: RelayState, run: seq<Arrived>, i: nat): Outcome
    requires i < |run|
  {
    Process(x, c, StateAt(x, c, st, run, i), run[i]).outcome
  }

  lemma OutcomesPointwise(x: Sphinx, c: RelayConfig, st: RelayState, run: seq<Arrived>, i: nat)
    requires i < |run|
    ensures Outcomes(x, c, st, run)[i] == OutcomeAt(x, c, st, run, i)
  {
    TracePointwise(StepOf(x, c), st, run, i);
  }

  // -------------------------------------------------------------- once per γ

  /** The packet gets to the replay cache. */
  predicate Reaches(x: Sphinx, c: RelayConfig, a: Arrived, checked: Checked) {
    |a.bytes| == PACKET_SIZE && checked.decision == Allow && Verify(x, c, a.bytes).Authentic?
  }

  /** The packet gets to the replay cache and is not refused there. */
  predicate Records(x: Sphinx, c: RelayConfig, st: RelayState, a: Arrived) {
    && Reaches(x, c, a, Check(st.limiter, a.checkedAt))
    && Process(x, c, st, a).outcome != Drop(ReplayedPacket)
  }

  function Gamma(x: Sphinx, c: RelayConfig, a: Arrived): Key
    requires |a.bytes| == PACKET_SIZE && Verify(x, c, a.bytes).Authentic?
  {
    Verify(x, c, a.bytes).header.gamma
  }

  /** What the `i`-th packet adds to the cache. */
  function MarkAt(x: Sphinx, c: RelayConfig, st: RelayState, run: seq<Arrived>, i: nat): Option<Entry>
    requires i < |run|
  {
    if Records(x, c, StateAt(x, c, st, run, i), run[i]) then Some(Entry(Gamma(x, c, run[i]), run[i].seenAt)) else None
  }

  function Tabulate(f: nat -> Option<Entry>, n: nat): (ms: seq<Option<Entry>>)
    ensures |ms| == n
  {
    if n == 0 then [] else Tabulate(f, n - 1) + [f(n - 1)]
  }

  lemma {:induction false} TabulatePointwise(f: nat -> Option<Entry>, n: nat, i: nat)
    requires i < n
    ensures Tabulate(f, n)[i] == f(i)
  {
    if i == n - 1 {
    } else {
      TabulatePointwise(f, n - 1, i);
    }
  }

  function MarkOf(x: Sphinx, c: RelayConfig, st: RelayState, run: seq<Arrived>): nat -> Option<Entry> {
    (i: nat) => if i < |run| then MarkAt(x, c, st, run, i) else None
  }

  /** What each of the first `n` packets adds. */
  function Marks(x: Sphinx, c: RelayConfig, st: RelayState, run: seq<Arrived>, n: nat): (ms: seq<Option<Entry>>)
    requires n <= |run|
    ensures |ms| == n
  {
    Tabulate(MarkOf(x, c, st, run), n)
  }

  lemma MarksPointwise(x: Sphinx, c: RelayConfig, st: RelayState, run: seq<Arrived>, n: nat, i: nat)
    requires i < n <= |run|
    ensures Marks(x, c, st, run, n)[i] == MarkAt(x, c, st, run, i)
  {
    TabulatePointwise(MarkOf(x, c, st, run), n, i);
  }

  function Growth(mark: Option<Entry>): seq<Entry> {
    if mark.Some? then [mark.value] else []
  }

  /** What the cache held at the start and everything newly recorded by the first `n` packets. */
  function Recorded(held: seq<Entry>, marks: seq<Option<Entry>>, n: nat): seq<Entry>
    requires n <= |marks|
  {
    if n == 0 then held
    else Recorded(held, marks, n - 1) + Growth(marks[n - 1])
  }

  lemma {:induction false} RecordedGrows(held: seq<Entry>, marks: seq<Option<Entry>>, m: nat, n: nat)
    requires m <= n <= |marks|
    ensures Recorded(held, marks, m) <= Recorded(held, marks, n)
    decreases n
  {
    if m == n {
    } else {
      RecordedGrows(held, marks, m, n - 1);
    }
  }

  /** What a packet adds stands in the log right after what was recorded before it. */
  lemma MarkStandsAt(held: seq<Entry>, marks: seq<Option<Entry>>, i: nat, n: nat)
    requires i < n <= |marks| && marks[i].Some?
    ensures var at, log := |Recorded(held, marks, i)|, Recorded(held, marks, n);
            at < |log| && log[at] == marks[i].value
  {
    assert Recorded(held, marks, i + 1) == Recorded(held, marks, i) + [marks[i].value];
    RecordedGrows(held, marks, i + 1, n);
  }

  /**
   The `cap` entries just before `log[j]` are newer than `log[i]`, all different, and none has
   the key of `log[j]`.
   */
  ghost predicate PushedOut(log: seq<Entry>, i: nat, j: nat, cap: nat)
    requires i < j < |log|
  {
    j - i > cap && DistinctKeys(log[j - cap..j]) && !HasKey(log[j - cap..j], log[j].key)
  }

  /** In the log up to packet `j`, the entry at `first` was followed by `cap` different others before packet `j`'s. */
  ghost predicate PushedOutBefore(held: seq<Entry>, marks: seq<Option<Entry>>, first: nat, j: nat, cap: nat)
    requires j < |marks|
  {
    var log, second := Recorded(held, marks, j + 1), |Recorded(held, marks, j)|;
    first < second < |log| && PushedOut(log, first, second, cap)
  }

  /** The same for the entry that packet `i` added. */
  ghost predicate PushedOutBetween(held: seq<Entry>, marks: seq<Option<Entry>>, i: nat, j: nat, cap: nat)
    requires i < j < |marks|
  {
    PushedOutBefore(held, marks, |Recorded(held, marks, i)|, j, cap)
  }

  lemma MarkedTwice(held: seq<Entry>, marks: seq<Option<Entry>>, log: seq<Entry>, i: nat, j: nat,
                    e: Entry, f: Entry, ttl: nat, cap: nat)
    requires i < j < |marks| && log == Recorded(held, marks, j + 1) && LogSound(log, ttl, cap)
    requires marks[i] == Some(e) && marks[j] == Some(f) && e.key == f.key
    ensures f.ts - e.ts > ttl || PushedOutBetween(held, marks, i, j, cap)
  {
    MarkStandsAt(held, marks, i, j);
    MarkStandsAt(held, marks, i, j + 1);
    MarkStandsAt(held, marks, j, j + 1);
    AcceptedTwice(log, |Recorded(held, marks, i)|, |Recorded(held, marks, j)|, ttl, cap);
  }

  lemma MarkedAgain(held: seq<Entry>, marks: seq<Option<Entry>>, log: seq<Entry>, k: nat, j: nat,
                    f: Entry, ttl: nat, cap: nat)
    requires k < |held| && j < |marks| && log == Recorded(held, marks, j + 1) && LogSound(log, ttl, cap)
    requires marks[j] == Some(f) && held[k].key == f.key
    ensures f.ts - held[k].ts > ttl || PushedOutBefore(held, marks, k, j, cap)
  {
    RecordedGrows(held, marks, 0, j);
    RecordedGrows(held, marks, 0, j + 1);
    MarkStandsAt(held, marks, j, j + 1);
    AcceptedTwice(log, k, |Recorded(held, marks, j)|, ttl, cap);
  }

  predicate Passes(o: Outcome) {
    o.Forward? || o.DeliverLocal?
  }

  ghost predicate Chronological(run: seq<Arrived>, start: nat) {
    && (forall i :: 0 <= i < |run| ==> start <= run[i].seenAt)
    && (forall i, j :: 0 <= i < j < |run| ==> run[i].seenAt <= run[j].seenAt)
  }

  lemma GatePassing(x: Sphinx, c: RelayConfig, st: RelayState, a: Arrived, checked: Checked)
    requires |a.bytes| == PACKET_SIZE && Passes(Gate(x, c, st, a, checked).outcome)
    ensures Reaches(x, c, a, checked)
  {
  }

  lemma PassingRecords(x: Sphinx, c: RelayConfig, st: RelayState, a: Arrived)
    requires Passes(Process(x, c, st, a).outcome)
    ensures Records(x, c, st, a)
  {
    GatePassing(x, c, st, a, Check(st.limiter, a.checkedAt));
  }

  /** What the relay's key takes off the header, if it decodes, is of an accepted version and the keys derive. */
  function Peel(x: Sphinx, c: RelayConfig, bytes: Bytes): Option<Peeled>
    requires |bytes| == PACKET_SIZE
  {
    var header := x.decode(bytes[..HEADER_LEN]);
    if header.None? || !AcceptsVersion(x, c, header.value) then None
    else
      var keys := x.subKeys(x.agree(c.sk, header.value.alpha));
      if keys.None? then None else Some(x.peel(header.value, keys.value))
  }

  /** The packet is authentic, and this is what the replay cache says to its γ. */
  predicate Meets(x: Sphinx, c: RelayConfig, st: RelayState, a: Arrived, check: ReplayCheck)
    requires |a.bytes| == PACKET_SIZE
  {
    && Peel(x, c, a.bytes).Some? && Peel(x, c, a.bytes).value.Layer?
    && CheckAndInsert(st.queue, x.decode(a.bytes[..HEADER_LEN]).value.gamma, a.seenAt, c.ttl, c.maxSize).check == check
  }

  lemma VerifiedIsPeeled(x: Sphinx, c: RelayConfig, bytes: Bytes)
    requires |bytes| == PACKET_SIZE
    ensures var v, peeled := Verify(x, c, bytes), Peel(x, c, bytes);
            && (v == Unverified(BadMac) <==> peeled == Some(MacFailed))
            && (v == Unverified(Malformed) <==> peeled.None? || peeled.value.Undecodable?)
            && (v.Authentic? <==> peeled.Some? && peeled.value.Layer?)
            && (v.Authentic? ==> x.decode(bytes[..HEADER_LEN]) == Some(v.header) && peeled.value.record == v.record)
  {
  }

  ghost predicate DropsExactly(x: Sphinx, c: RelayConfig, st: RelayState, a: Arrived, allowed: bool, o: Outcome)
    requires |a.bytes| == PACKET_SIZE
  {
    var peeled := Peel(x, c, a.bytes);
    && (o == Drop(RateLimited) <==> !allowed)
    && (o == Drop(Malformed) <==> allowed && (peeled.None? || peeled.value.Undecodable?))
    && (o == Drop(BadMac) <==> allowed && peeled == Some(MacFailed))
    && (o == Drop(ReplayedPacket) <==> allowed && Meets(x, c, st, a, Replay))
    && (o == Drop(PolicyDenied) <==>
          && allowed && Meets(x, c, st, a, Fresh) && !peeled.value.record.lastHop
          && peeled.value.record.nextNode == x.publicKey(c.sk))
  }

  lemma GateDrops(x: Sphinx, c: RelayConfig, st: RelayState, a: Arrived, checked: Checked, v: Verified)
    requires |a.bytes| == PACKET_SIZE && v == Verify(x, c, a.bytes)
    ensures DropsExactly(x, c, st, a, checked.decision == Allow, Gate(x, c, st, a, checked).outcome)
  {
    VerifiedIsPeeled(x, c, a.bytes);
  }

  /** Why a packet is dropped, for each reason: exactly when. */
  lemma DroppedExactly(x: Sphinx, c: RelayConfig, st: RelayState, a: Arrived)
    ensures |a.bytes| != PACKET_SIZE ==> Process(x, c, st, a) == Processed(Drop(Malformed), st)
    ensures |a.bytes| == PACKET_SIZE ==>
              DropsExactly(x, c, st, a, Check(st.limiter, a.checkedAt).decision == Allow, Process(x, c, st, a).outcome)
  {
    if |a.bytes| == PACKET_SIZE {
      GateDrops(x, c, st, a, Check(st.limiter, a.checkedAt), Verify(x, c, a.bytes));
    }
  }

  function HeldFor(micros: nat, sampled: nat): nat {
    if micros == 0 then sampled else if micros <= 30_000_000 then 1_000 * micros else 30_000_000_000
  }

  lemma RouteHolds(x: Sphinx, c: RelayConfig, v: Verified, a: Arrived)
    requires v.Authentic? && |a.bytes| == PACKET_SIZE && Passes(Route(x, c, v, a))
    ensures Route(x, c, v, a).delay == HeldFor(v.record.delayMicros, a.sampled)
  {
  }

  lemma GateRoutes(x: Sphinx, c: RelayConfig, st: RelayState, a: Arrived, checked: Checked, v: Verified)
    requires |a.bytes| == PACKET_SIZE && v == Verify(x, c, a.bytes) && Passes(Gate(x, c, st, a, checked).outcome)
    ensures v.Authentic? && Gate(x, c, st, a, checked).outcome == Route(x, c, v, a)
  {
  }

  /** A packet that passes is held for the delay in its record, but at most 30 seconds, or for the sampled one. */
  lemma PassedIsHeld(x: Sphinx, c: RelayConfig, st: RelayState, a: Arrived)
    requires Passes(Process(x, c, st, a).outcome)
    ensures |a.bytes| == PACKET_SIZE && Verify(x, c, a.bytes).Authentic?
    ensures Process(x, c, st, a).outcome.delay == HeldFor(Verify(x, c, a.bytes).record.delayMicros, a.sampled)
  {
    GateRoutes(x, c, st, a, Check(st.limiter, a.checkedAt), Verify(x, c, a.bytes));
    RouteHolds(x, c, Verify(x, c, a.bytes), a);
  }

  ghost predicate Logged(st: RelayState, log: seq<Entry>, now: nat, c: RelayConfig) {
    Tracks(st.queue, log, now, c.ttl, Capacity(c.maxSize))
  }

  lemma GateReaching(x: Sphinx, c: RelayConfig, st: RelayState, a: Arrived, checked: Checked)
    requires |a.bytes| == PACKET_SIZE
    ensures !Reaches(x, c, a, checked) ==> Gate(x, c, st, a, checked).state.queue == st.queue
    ensures Reaches(x, c, a, checked) ==>
              var v := CheckAndInsert(st.queue, Gamma(x, c, a), a.seenAt, c.ttl, c.maxSize);
              && Gate(x, c, st, a, checked).state.queue == v.queue
              && (Gate(x, c, st, a, checked).outcome != Drop(ReplayedPacket) <==> v.check == Fresh)
  {
    var v := Verify(x, c, a.bytes);
    if v.Authentic? {
      assert Route(x, c, v, a) != Drop(ReplayedPacket);
    }
  }

  /** One packet does to the log what it does to the cache. */
  lemma ProcessLogs(x: Sphinx, c: RelayConfig, st: RelayState, log: seq<Entry>, was: nat, a: Arrived)
    requires Logged(st, log, was, c) && was <= a.seenAt
    ensures Logged(Process(x, c, st, a).state,
                   log + if Records(x, c, st, a) then [Entry(Gamma(x, c, a), a.seenAt)] else [], a.seenAt, c)
  {
    var cap := Capacity(c.maxSize);
    var checked := Check(st.limiter, a.checkedAt);
    if |a.bytes| == PACKET_SIZE {
      GateReaching(x, c, st, a, checked);
    }
    assert log + [] == log;
    if Reaches(x, c, a, checked) {
      var arrival := Arrival(Gamma(x, c, a), a.seenAt);
      CheckRefinesLog(st.queue, log, was, arrival, c.ttl, c.maxSize);
      LogStepKeepsSound(log, arrival, c.ttl, cap);
    } else {
      RepresentsLater(st.queue, log, was, a.seenAt, c.ttl, cap);
    }
  }

  lemma RunLogsStep(x: Sphinx, c: RelayConfig, st: RelayState, run: seq<Arrived>, n: nat,
                    marks: seq<Option<Entry>>, was: nat)
    requires 1 <= n <= |run| && |marks| == |run| && marks[n - 1] == MarkAt(x, c, st, run, n - 1)
    requires was <= run[n - 1].seenAt
    requires Logged(StateAt(x, c, st, run, n - 1), Recorded(st.queue, marks, n - 1), was, c)
    ensures Logged(StateAt(x, c, st, run, n), Recorded(st.queue, marks, n), run[n - 1].seenAt, c)
  {
    ProcessLogs(x, c, StateAt(x, c, st, run, n - 1), Recorded(st.queue, marks, n - 1), was, run[n - 1]);
  }

  /** A cache in good order is the log of itself. */
  lemma LoggedAtStart(st: RelayState, start: nat, c: RelayConfig)
    requires WellFormed(st.queue, start, Capacity(c.maxSize))
    ensures Logged(st, st.queue, start, c)
  {
    RepresentsItself(st.queue, start, c.ttl, Capacity(c.maxSize));
  }

  ghost predicate AreMarks(x: Sphinx, c: RelayConfig, st: RelayState, run: seq<Arrived>, marks: seq<Option<Entry>>) {
    |marks| == |run| && forall i :: 0 <= i < |run| ==> marks[i] == MarkAt(x, c, st, run, i)
  }

  /** The relay starts, at `start`, with a cache in good order: empty, or restored from a snapshot. */
  ghost predicate Starts(c: RelayConfig, st: RelayState, start: nat, run: seq<Arrived>) {
    WellFormed(st.queue, start, Capacity(c.maxSize)) && Chronological(run, start)
  }

  lemma {:induction false} RunLogs(x: Sphinx, c: RelayConfig, st: RelayState, start: nat, run: seq<Arrived>, n: nat,
                                   marks: seq<Option<Entry>>, now: nat)
    requires Starts(c, st, start, run) && n <= |run| && AreMarks(x, c, st, run, marks)
    requires now == if n == 0 then start else run[n - 1].seenAt
    ensures Logged(StateAt(x, c, st, run, n), Recorded(st.queue, marks, n), now, c)
  {
    if n == 0 {
      LoggedAtStart(st, start, c);
    } else {
      var was := if n == 1 then start else run[n - 2].seenAt;
      RunLogs(x, c, st, start, run, n - 1, marks, was);
      RunLogsStep(x, c, st, run, n, marks, was);
    }
  }

  /** The packet is forwarded or delivered, under γ. */
  ghost predicate PassesWith(x: Sphinx, c: RelayConfig, st: RelayState, run: seq<Arrived>, i: nat, gamma: Key)
    requires i < |run|
  {
    && Passes(OutcomeAt(x, c, st, run, i))
    && |run[i].bytes| == PACKET_SIZE && Verify(x, c, run[i].bytes).Authentic? && Gamma(x, c, run[i]) == gamma
  }

  lemma PassedIsMarked(x: Sphinx, c: RelayConfig, st: RelayState, run: seq<Arrived>, i: nat, gamma: Key)
    requires i < |run| && PassesWith(x, c, st, run, i, gamma)
    ensures Marks(x, c, st, run, |run|)[i] == Some(Entry(gamma, run[i].seenAt))
  {
    PassingRecords(x, c, StateAt(x, c, st, run, i), run[i]);
    MarksPointwise(x, c, st, run, |run|, i);
  }

  lemma RecordedIsSound(x: Sphinx, c: RelayConfig, st: RelayState, start: nat, run: seq<Arrived>, n: nat,
                        log: seq<Entry>)
    requires Starts(c, st, start, run) && 1 <= n <= |run|
    requires log == Recorded(st.queue, Marks(x, c, st, run, |run|), n)
    ensures LogSound(log, c.ttl, Capacity(c.maxSize))
  {
    forall i | 0 <= i < |run| ensures Marks(x, c, st, run, |run|)[i] == MarkAt(x, c, st, run, i) {
      MarksPointwise(x, c, st, run, |run|, i);
    }
    RunLogs(x, c, st, start, run, n, Marks(x, c, st, run, |run|), run[n - 1].seenAt);
  }

  lemma RecordedTwice(x: Sphinx, c: RelayConfig, st: RelayState, start: nat, run: seq<Arrived>, i: nat, j: nat,
                      e: Entry, f: Entry)
    requires Starts(c, st, start, run) && i < j < |run| && e.key == f.key
    requires Marks(x, c, st, run, |run|)[i] == Some(e) && Marks(x, c, st, run, |run|)[j] == Some(f)
    ensures || f.ts - e.ts > c.ttl
            || PushedOutBetween(st.queue, Marks(x, c, st, run, |run|), i, j, Capacity(c.maxSize))
  {
    var marks := Marks(x, c, st, run, |run|);
    var log := Recorded(st.queue, marks, j + 1);
    RecordedIsSound(x, c, st, start, run, j + 1, log);
    MarkedTwice(st.queue, marks, log, i, j, e, f, c.ttl, Capacity(c.maxSize));
  }

  lemma HeldThenRecorded(x: Sphinx, c: RelayConfig, st: RelayState, start: nat, run: seq<Arrived>, k: nat, j: nat,
                         f: Entry)
    requires Starts(c, st, start, run) && k < |st.queue| && j < |run| && st.queue[k].key == f.key
    requires Marks(x, c, st, run, |run|)[j] == Some(f)
    ensures || f.ts - st.queue[k].ts > c.ttl
            || PushedOutBefore(st.queue, Marks(x, c, st, run, |run|), k, j, Capacity(c.maxSize))
  {
    var marks := Marks(x, c, st, run, |run|);
    var log := Recorded(st.queue, marks, j + 1);
    RecordedIsSound(x, c, st, start, run, j + 1, log);
    MarkedAgain(st.queue, marks, log, k, j, f, c.ttl, Capacity(c.maxSize));
  }

  /**
   At most once per γ: from any cache in good order and in every run, if two packets with the
   same γ are both forwarded or delivered, then more than the lifetime passed between them, or
   the last `Capacity(maxSize)` γ values recorded before the second one are all different, none
   is that γ, and all were recorded after the first one.
   */
  lemma OncePerGamma(x: Sphinx, c: RelayConfig, st: RelayState, start: nat, run: seq<Arrived>, i: nat, j: nat,
                     gamma: Key)
    requires Starts(c, st, start, run) && i < j < |run|
    requires PassesWith(x, c, st, run, i, gamma) && PassesWith(x, c, st, run, j, gamma)
    ensures || run[j].seenAt - run[i].seenAt > c.ttl
            || PushedOutBetween(st.queue, Marks(x, c, st, run, |run|), i, j, Capacity(c.maxSize))
  {
    PassedIsMarked(x, c, st, run, i, gamma);
    PassedIsMarked(x, c, st, run, j, gamma);
    RecordedTwice(x, c, st, start, run, i, j, Entry(gamma, run[i].seenAt), Entry(gamma, run[j].seenAt));
  }

  /**
   The same for a γ that the cache held at the start: its packet passes again only after its lifetime or
   displaced.
   */
  lemma HeldGammaPasses(x: Sphinx, c: RelayConfig, st: RelayState, start: nat, run: seq<Arrived>, k: nat, j: nat)
    requires Starts(c, st, start, run) && k < |st.queue| && j < |run| && PassesWith(x, c, st, run, j, st.queue[k].key)
    ensures || run[j].seenAt - st.queue[k].ts > c.ttl
            || PushedOutBefore(st.queue, Marks(x, c, st, run, |run|), k, j, Capacity(c.maxSize))
  {
    PassedIsMarked(x, c, st, run, j, st.queue[k].key);
    HeldThenRecorded(x, c, st, start, run, k, j, Entry(st.queue[k].key, run[j].seenAt));
  }

  /** A relay that has loaded a snapshot, or found none, starts with a cache in good order. */
  lemma RestoredStarts(c: RelayConfig, st: RelayState, records: seq<Record>, start: nat, nowUnix: u64,
                       run: seq<Arrived>)
    requires st.queue == Adopted([], records, start, nowUnix, c.ttl, c.maxSize) && Chronological(run, start)
    ensures Starts(c, st, start, run)
  {
    RestoredQueue(records, start, nowUnix, c.ttl, c.maxSize);
  }
}
