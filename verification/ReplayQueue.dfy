/**
 The replay cache on values: the FIFO queue of (γ, instant) pairs that the relay keeps,
 and its reference, the append-only log of every γ ever accepted.

 The main results are that the bounded, lazily swept queue answers exactly like the log
 (`QueueRefinesLog`), and what that means for a γ that is accepted twice (`AcceptedTwice`).
 */
module ReplayQueue {
  import opened Prelude

  const KEY_LIMIT: nat := 0x1_0000_0000_0000_0000_0000_0000_0000_0000

  /** γ, the 16-byte tag of a packet at one hop, as the number it spells in big-endian order. */
  type Key = k: int | 0 <= k < KEY_LIMIT

  datatype Entry = Entry(key: Key, ts: nat)

  datatype ReplayCheck = Fresh | Replay

  /** One packet that reaches the cache: its γ and the instant it is checked at. */
  datatype Arrival = Arrival(key: Key, at: nat)

  datatype Verdict = Verdict(queue: seq<Entry>, check: ReplayCheck)

  predicate HasKey(q: seq<Entry>, key: Key) {
    exists i :: 0 <= i < |q| && q[i].key == key
  }

  ghost predicate DistinctKeys(q: seq<Entry>) {
    forall i, j :: 0 <= i < j < |q| ==> q[i].key != q[j].key
  }

  ghost predicate TimeOrdered(q: seq<Entry>) {
    forall i, j :: 0 <= i < j < |q| ==> q[i].ts <= q[j].ts
  }

  ghost predicate NoneAfter(q: seq<Entry>, now: nat) {
    forall i :: 0 <= i < |q| ==> q[i].ts <= now
  }

  predicate Expired(e: Entry, now: nat, ttl: nat) {
    Monus(now, e.ts) > ttl
  }

  /** A cache configured with no room still keeps one entry. */
  function Capacity(maxSize: nat): nat {
    Max(maxSize, 1)
  }

  // ---------------------------------------------------------------- the queue

  /** Drops entries from the front while they are expired. */
  function Sweep(q: seq<Entry>, now: nat, ttl: nat): (r: seq<Entry>)
    ensures |r| <= |q| && r == q[|q| - |r|..]
    ensures forall i :: 0 <= i < |q| - |r| ==> Expired(q[i], now, ttl)
    ensures r != [] ==> !Expired(r[0], now, ttl)
  {
    if q != [] && Expired(q[0], now, ttl) then Sweep(q[1..], now, ttl) else q
  }

  function Evict(q: seq<Entry>, maxSize: nat): seq<Entry> {
    if |q| >= maxSize && q != [] then q[1..] else q
  }

  function CheckAndInsert(q: seq<Entry>, key: Key, now: nat, ttl: nat, maxSize: nat): Verdict {
    var live := Sweep(q, now, ttl);
    if HasKey(live, key) then Verdict(live, Replay)
    else Verdict(Evict(live, maxSize) + [Entry(key, now)], Fresh)
  }

  /** The answers of the cache to a whole sequence of packets. */
  function RunQueue(q: seq<Entry>, run: seq<Arrival>, ttl: nat, maxSize: nat): seq<ReplayCheck>
    decreases |run|
  {
    if run == [] then []
    else
      var v := CheckAndInsert(q, run[0].key, run[0].at, ttl, maxSize);
      [v.check] + RunQueue(v.queue, run[1..], ttl, maxSize)
  }

  // ------------------------------------------------------------------ the log

  /** The reference answer: `key` is among the last `cap` accepted ones and not older than `ttl`. */
  ghost predicate LogRefuses(log: seq<Entry>, key: Key, now: nat, ttl: nat, cap: nat) {
    exists i :: Max(0, |log| - cap) <= i < |log| && log[i].key == key && Monus(now, log[i].ts) <= ttl
  }

  ghost function LogStep(log: seq<Entry>, a: Arrival, ttl: nat, cap: nat): seq<Entry> {
    if LogRefuses(log, a.key, a.at, ttl, cap) then log else log + [Entry(a.key, a.at)]
  }

  ghost function RunLog(log: seq<Entry>, run: seq<Arrival>, ttl: nat, cap: nat): seq<ReplayCheck>
    decreases |run|
  {
    if run == [] then []
    else
      [if LogRefuses(log, run[0].key, run[0].at, ttl, cap) then Replay else Fresh]
      + RunLog(LogStep(log, run[0], ttl, cap), run[1..], ttl, cap)
  }

  /** Instants never run backwards, and none is before `start`. */
  ghost predicate Chronological(run: seq<Arrival>, start: nat) {
    && (forall i :: 0 <= i < |run| ==> start <= run[i].at)
    && (forall i, j :: 0 <= i < j < |run| ==> run[i].at <= run[j].at)
  }

  // --------------------------------------------------------------- refinement

  ghost predicate WellFormed(q: seq<Entry>, now: nat, cap: nat) {
    DistinctKeys(q) && TimeOrdered(q) && NoneAfter(q, now) && |q| <= cap
  }

  lemma TailWellFormed(q: seq<Entry>, n: nat, now: nat, cap: nat)
    requires WellFormed(q, now, cap) && n <= |q|
    ensures WellFormed(q[n..], now, cap)
  {
  }

  /** Whatever the log holds before `cut` is out of its last `cap` entries or expired at `now`. */
  ghost predicate Forgettable(log: seq<Entry>, cut: nat, now: nat, ttl: nat, cap: nat) {
    forall i :: 0 <= i < cut && i < |log| ==> i < |log| - cap || Expired(log[i], now, ttl)
  }

  /** The queue is the tail of the log, and the log forgets nothing that it should remember. */
  ghost predicate Represents(q: seq<Entry>, log: seq<Entry>, now: nat, ttl: nat, cap: nat) {
    && WellFormed(q, now, cap)
    && |q| <= |log| && q == log[|log| - |q|..]
    && Forgettable(log, |log| - |q|, now, ttl, cap)
  }

  lemma RepresentsItself(q: seq<Entry>, now: nat, ttl: nat, cap: nat)
    requires WellFormed(q, now, cap)
    ensures Represents(q, q, now, ttl, cap)
  {
  }

  /** Time passing alone does not change what a queue stands for. */
  lemma RepresentsLater(q: seq<Entry>, log: seq<Entry>, was: nat, now: nat, ttl: nat, cap: nat)
    requires Represents(q, log, was, ttl, cap) && was <= now
    ensures Represents(q, log, now, ttl, cap)
  {
  }

  /** What stands before the tail may be forgotten once the first `n` entries of the tail are expired. */
  lemma ForgetsExpired(q: seq<Entry>, log: seq<Entry>, n: nat, was: nat, now: nat, ttl: nat, cap: nat)
    requires n <= |q| <= |log| && q == log[|log| - |q|..] && Forgettable(log, |log| - |q|, was, ttl, cap) && was <= now
    requires forall i :: 0 <= i < n ==> Expired(q[i], now, ttl)
    ensures Forgettable(log, |log| - |q| + n, now, ttl, cap)
  {
    var base := |log| - |q|;
    forall i | 0 <= i < base + n && i < |log| ensures i < |log| - cap || Expired(log[i], now, ttl) {
      if base <= i {
        assert log[i] == q[i - base];
      }
    }
  }

  lemma TailOfTail(q: seq<Entry>, log: seq<Entry>, n: nat)
    requires n <= |q| <= |log| && q == log[|log| - |q|..]
    ensures q[n..] == log[|log| - |q| + n..]
  {
  }

  lemma DropsExpired(q: seq<Entry>, log: seq<Entry>, n: nat, was: nat, now: nat, ttl: nat, cap: nat)
    requires Represents(q, log, was, ttl, cap) && was <= now && n <= |q|
    requires forall i :: 0 <= i < n ==> Expired(q[i], now, ttl)
    ensures Represents(q[n..], log, now, ttl, cap)
  {
    ForgetsExpired(q, log, n, was, now, ttl, cap);
    TailOfTail(q, log, n);
    TailWellFormed(q, n, was, cap);
  }

  lemma SweepKeepsRepresentation(q: seq<Entry>, log: seq<Entry>, was: nat, now: nat, ttl: nat, cap: nat)
    requires Represents(q, log, was, ttl, cap) && was <= now
    ensures Represents(Sweep(q, now, ttl), log, now, ttl, cap)
  {
    DropsExpired(q, log, |q| - |Sweep(q, now, ttl)|, was, now, ttl, cap);
  }

  /** In an ordered queue whose first entry is live all are. */
  lemma FirstIsOldest(r: seq<Entry>, now: nat, ttl: nat)
    requires TimeOrdered(r) && (r != [] ==> !Expired(r[0], now, ttl))
    ensures forall i :: 0 <= i < |r| ==> !Expired(r[i], now, ttl)
  {
    forall i | 0 <= i < |r| ensures !Expired(r[i], now, ttl) {
      assert r[0].ts <= r[i].ts;
    }
  }

  lemma TailOrdered(q: seq<Entry>, n: nat)
    requires TimeOrdered(q) && n <= |q|
    ensures TimeOrdered(q[n..])
  {
  }

  /** After a sweep of an ordered queue every remaining entry is live. */
  lemma SweptAreLive(q: seq<Entry>, now: nat, ttl: nat)
    requires TimeOrdered(q)
    ensures forall i :: 0 <= i < |Sweep(q, now, ttl)| ==> !Expired(Sweep(q, now, ttl)[i], now, ttl)
  {
    TailOrdered(q, |q| - |Sweep(q, now, ttl)|);
    FirstIsOldest(Sweep(q, now, ttl), now, ttl);
  }

  lemma AnswersAgree(live: seq<Entry>, log: seq<Entry>, key: Key, now: nat, ttl: nat, cap: nat)
    requires Represents(live, log, now, ttl, cap)
    requires forall i :: 0 <= i < |live| ==> !Expired(live[i], now, ttl)
    ensures HasKey(live, key) <==> LogRefuses(log, key, now, ttl, cap)
  {
    var base := |log| - |live|;
    if HasKey(live, key) {
      var i :| 0 <= i < |live| && live[i].key == key;
      assert log[base + i] == live[i];
    }
    if LogRefuses(log, key, now, ttl, cap) {
      var i :| Max(0, |log| - cap) <= i < |log| && log[i].key == key && Monus(now, log[i].ts) <= ttl;
      assert base <= i;
      assert log[i] == live[i - base];
    }
  }

  lemma AppendWellFormed(q: seq<Entry>, key: Key, now: nat, cap: nat)
    requires WellFormed(q, now, cap) && |q| < cap && !HasKey(q, key)
    ensures WellFormed(q + [Entry(key, now)], now, cap)
  {
  }

  lemma EvictMakesRoom(live: seq<Entry>, key: Key, now: nat, maxSize: nat)
    requires WellFormed(live, now, Capacity(maxSize)) && !HasKey(live, key)
    ensures var kept := Evict(live, maxSize);
            WellFormed(kept, now, Capacity(maxSize)) && |kept| < Capacity(maxSize) && !HasKey(kept, key)
  {
    if live != [] {
      TailWellFormed(live, 1, now, Capacity(maxSize));
    }
  }

  lemma InsertKeepsRepresentation(live: seq<Entry>, log: seq<Entry>, key: Key, now: nat, ttl: nat, maxSize: nat)
    requires Represents(live, log, now, ttl, Capacity(maxSize)) && !HasKey(live, key)
    ensures Represents(Evict(live, maxSize) + [Entry(key, now)], log + [Entry(key, now)], now, ttl, Capacity(maxSize))
  {
    var kept, grown := Evict(live, maxSize), log + [Entry(key, now)];
    EvictMakesRoom(live, key, now, maxSize);
    AppendWellFormed(kept, key, now, Capacity(maxSize));
    assert kept + [Entry(key, now)] == grown[|grown| - |kept| - 1..];
    assert forall i :: 0 <= i < |log| ==> grown[i] == log[i];
  }

  /** One check: the queue and the log give the same answer and stay related. */
  lemma CheckRefinesLog(q: seq<Entry>, log: seq<Entry>, was: nat, a: Arrival, ttl: nat, maxSize: nat)
    requires Represents(q, log, was, ttl, Capacity(maxSize)) && was <= a.at
    ensures var v := CheckAndInsert(q, a.key, a.at, ttl, maxSize);
            && (v.check == Replay <==> LogRefuses(log, a.key, a.at, ttl, Capacity(maxSize)))
            && Represents(v.queue, LogStep(log, a, ttl, Capacity(maxSize)), a.at, ttl, Capacity(maxSize))
  {
    var cap := Capacity(maxSize);
    var live := Sweep(q, a.at, ttl);
    SweepKeepsRepresentation(q, log, was, a.at, ttl, cap);
    SweptAreLive(q, a.at, ttl);
    AnswersAgree(live, log, a.key, a.at, ttl, cap);
    if !HasKey(live, a.key) {
      InsertKeepsRepresentation(live, log, a.key, a.at, ttl, maxSize);
    }
  }

  /**
   Refinement over whole runs: from any well-formed queue (the empty one in particular)
   and for every run with non-decreasing instants, the cache answers `Replay` exactly
   when the γ is among the last `Capacity(maxSize)` accepted entries and at most `ttl` old.
   */
  lemma {:induction false} QueueRefinesLog(
    q: seq<Entry>, log: seq<Entry>, now: nat, run: seq<Arrival>, ttl: nat, maxSize: nat)
    requires Represents(q, log, now, ttl, Capacity(maxSize)) && Chronological(run, now)
    ensures RunQueue(q, run, ttl, maxSize) == RunLog(log, run, ttl, Capacity(maxSize))
    decreases |run|
  {
    if run == [] {
    } else {
      CheckRefinesLog(q, log, now, run[0], ttl, maxSize);
      var v := CheckAndInsert(q, run[0].key, run[0].at, ttl, maxSize);
      QueueRefinesLog(v.queue, LogStep(log, run[0], ttl, Capacity(maxSize)), run[0].at, run[1..], ttl, maxSize);
    }
  }

  /** One check keeps the queue well formed, whatever the configured size. */
  lemma CheckKeepsWellFormed(q: seq<Entry>, key: Key, was: nat, now: nat, ttl: nat, maxSize: nat)
    requires WellFormed(q, was, Capacity(maxSize)) && was <= now
    ensures WellFormed(CheckAndInsert(q, key, now, ttl, maxSize).queue, now, Capacity(maxSize))
  {
    RepresentsItself(q, was, ttl, Capacity(maxSize));
    CheckRefinesLog(q, q, was, Arrival(key, now), ttl, maxSize);
  }

  // ------------------------------------------------------------ accepted twice

  /** Every entry of the log was accepted: the entries before it did not refuse it. */
  ghost predicate LogSound(log: seq<Entry>, ttl: nat, cap: nat) {
    && TimeOrdered(log)
    && forall j :: 0 <= j < |log| ==> !LogRefuses(log[..j], log[j].key, log[j].ts, ttl, cap)
  }

  lemma LogStepKeepsSound(log: seq<Entry>, a: Arrival, ttl: nat, cap: nat)
    requires LogSound(log, ttl, cap) && NoneAfter(log, a.at)
    ensures LogSound(LogStep(log, a, ttl, cap), ttl, cap)
    ensures NoneAfter(LogStep(log, a, ttl, cap), a.at)
  {
    var next := LogStep(log, a, ttl, cap);
    forall j | 0 <= j < |next| ensures !LogRefuses(next[..j], next[j].key, next[j].ts, ttl, cap) {
      assert next[..j] == log[..j];
      if j == |log| {
        assert log[..j] == log;
      }
    }
  }

  /**
   If the same γ stands twice in the log, more than `ttl` passed in between, or the `cap`
   acceptances just before the second one are `cap` different other γ values, all newer
   than the first one.
   */
  lemma AcceptedTwice(log: seq<Entry>, i: nat, j: nat, ttl: nat, cap: nat)
    requires LogSound(log, ttl, cap)
    requires i < j < |log| && log[i].key == log[j].key
    ensures || log[j].ts - log[i].ts > ttl
            || (j - i > cap && DistinctKeys(log[j - cap..j]) && !HasKey(log[j - cap..j], log[j].key))
  {
    if log[j].ts - log[i].ts <= ttl {
      assert log[..j][i] == log[i];
      assert i < j - cap;
      var window := log[j - cap..j];
      forall a | 0 <= a < |window| ensures window[a].key != log[j].key {
        assert log[..j][j - cap + a] == window[a];
      }
      forall a, b | 0 <= a < b < |window| ensures window[a].key != window[b].key {
        var x, y := j - cap + a, j - cap + b;
        assert log[..y][x] == log[x];
        assert !LogRefuses(log[..y], log[y].key, log[y].ts, ttl, cap);
      }
    }
  }

  // ------------------------------------------------------------------ tracking

  /** The queue stands for the log, and the log is one of acceptances up to `now`. */
  ghost predicate Tracks(q: seq<Entry>, log: seq<Entry>, now: nat, ttl: nat, cap: nat) {
    Represents(q, log, now, ttl, cap) && LogSound(log, ttl, cap) && NoneAfter(log, now)
  }

  /** A queue in good order is the log of itself. */
  lemma TracksItself(q: seq<Entry>, now: nat, ttl: nat, cap: nat)
    requires WellFormed(q, now, cap)
    ensures Tracks(q, q, now, ttl, cap)
  {
    RepresentsItself(q, now, ttl, cap);
  }

  lemma TracksLater(q: seq<Entry>, log: seq<Entry>, was: nat, now: nat, ttl: nat, cap: nat)
    requires Tracks(q, log, was, ttl, cap) && was <= now
    ensures Tracks(q, log, now, ttl, cap)
  {
    RepresentsLater(q, log, was, now, ttl, cap);
  }

  /** A check that accepts adds to the log what it adds to the queue. */
  lemma TracksAccepted(q: seq<Entry>, log: seq<Entry>, was: nat, e: Entry, v: Verdict, ttl: nat, maxSize: nat)
    requires Tracks(q, log, was, ttl, Capacity(maxSize)) && was <= e.ts
    requires v == CheckAndInsert(q, e.key, e.ts, ttl, maxSize) && v.check == Fresh
    ensures Tracks(v.queue, log + [e], e.ts, ttl, Capacity(maxSize))
  {
    var a, cap := Arrival(e.key, e.ts), Capacity(maxSize);
    CheckRefinesLog(q, log, was, a, ttl, maxSize);
    LogStepKeepsSound(log, a, ttl, cap);
    assert LogStep(log, a, ttl, cap) == log + [e];
  }

  /** A check that refuses adds nothing. */
  lemma TracksRefused(q: seq<Entry>, log: seq<Entry>, was: nat, key: Key, now: nat, v: Verdict, ttl: nat, maxSize: nat)
    requires Tracks(q, log, was, ttl, Capacity(maxSize)) && was <= now
    requires v == CheckAndInsert(q, key, now, ttl, maxSize) && v.check == Replay
    ensures Tracks(v.queue, log, now, ttl, Capacity(maxSize))
  {
    var a, cap := Arrival(key, now), Capacity(maxSize);
    CheckRefinesLog(q, log, was, a, ttl, maxSize);
    LogStepKeepsSound(log, a, ttl, cap);
    assert LogStep(log, a, ttl, cap) == log;
  }

  ghost predicate Crowded(log: seq<Entry>, key: Key, cap: nat)
    requires cap <= |log|
  {
    DistinctKeys(log[|log| - cap..]) && !HasKey(log[|log| - cap..], key)
  }

  /** At least `cap` acceptances came after one of `key`: the last `cap` are all different, and none is of `key`. */
  ghost predicate Overtaken(log: seq<Entry>, key: Key, cap: nat) {
    exists i :: 0 <= i < |log| - cap && log[i].key == key && Crowded(log, key, cap)
  }

  /** Entries of the log that lie within one lifetime and within `cap` of each other are of different keys. */
  lemma RecentAreDistinct(log: seq<Entry>, now: nat, ttl: nat, cap: nat)
    requires LogSound(log, ttl, cap) && NoneAfter(log, now) && cap <= |log|
    requires forall a :: |log| - cap <= a < |log| ==> now - log[a].ts <= ttl
    ensures DistinctKeys(log[|log| - cap..])
  {
    var window := log[|log| - cap..];
    forall a, b | 0 <= a < b < |window| ensures window[a].key != window[b].key {
      var x, y := |log| - cap + a, |log| - cap + b;
      assert window[a] == log[x] && window[b] == log[y];
      assert log[..y][x] == log[x];
      assert !LogRefuses(log[..y], log[y].key, log[y].ts, ttl, cap);
    }
  }

  /** A key that was accepted within the lifetime is refused, or overtaken. */
  lemma RefusedOrOvertaken(log: seq<Entry>, i: nat, key: Key, now: nat, ttl: nat, cap: nat)
    requires LogSound(log, ttl, cap) && NoneAfter(log, now)
    requires i < |log| && log[i].key == key && now - log[i].ts <= ttl
    ensures LogRefuses(log, key, now, ttl, cap) || Overtaken(log, key, cap)
  {
    if !LogRefuses(log, key, now, ttl, cap) {
      assert i < |log| - cap;
      forall a | |log| - cap <= a < |log| ensures now - log[a].ts <= ttl && log[a].key != key {
        assert log[i].ts <= log[a].ts;
      }
      RecentAreDistinct(log, now, ttl, cap);
      var window := log[|log| - cap..];
      assert forall a :: 0 <= a < |window| ==> window[a] == log[|log| - cap + a];
      assert Crowded(log, key, cap);
    }
  }

  /** The same for the queue that tracks the log. */
  lemma TracksRefuses(q: seq<Entry>, log: seq<Entry>, was: nat, i: nat, now: nat, ttl: nat, maxSize: nat)
    requires Tracks(q, log, was, ttl, Capacity(maxSize)) && was <= now && i < |log| && now - log[i].ts <= ttl
    ensures || CheckAndInsert(q, log[i].key, now, ttl, maxSize).check == Replay
            || Overtaken(log, log[i].key, Capacity(maxSize))
  {
    TracksLater(q, log, was, now, ttl, Capacity(maxSize));
    RefusedOrOvertaken(log, i, log[i].key, now, ttl, Capacity(maxSize));
    CheckRefinesLog(q, log, was, Arrival(log[i].key, now), ttl, maxSize);
  }
}
