/**
 The age of one entry of the replay cache across restarts.

 A `Moment` is true time, in nanoseconds of the wall clock. Each life of the relay reads
 instants relative to its own origin (`boot`, which may lie before the epoch), and the
 snapshot carries whole wall-clock seconds. Wall clock and instants advance together.
 */
module ReplayRestarts {
  import opened Prelude
  import opened ReplayQueue
  import opened ReplayRestore
  import opened ReplayFile

  type Moment = t: int | 0 <= t < U64_LIMIT * SECOND

  function Unix(at: Moment): u64 {
    at / SECOND
  }

  function Instant(at: Moment, boot: int): nat {
    if boot <= at then at - boot else 0
  }

  // ------------------------------------------------------- drift of one entry

  /** One stop and start: saved in the running life, loaded in the one that starts at `boot`. */
  datatype Cycle = Cycle(save: Moment, load: Moment, boot: int)

  function AfterCycle(e: Entry, boot: int, c: Cycle): Entry {
    Revive(ToRecord(e, Instant(c.save, boot), Unix(c.save)), Instant(c.load, c.boot), Unix(c.load))
  }

  function AfterCycles(e: Entry, boot: int, cs: seq<Cycle>): Entry
    decreases |cs|
  {
    if cs == [] then e else AfterCycles(AfterCycle(e, boot, cs[0]), cs[0].boot, cs[1..])
  }

  ghost predicate InOrder(cs: seq<Cycle>, from: Moment) {
    && (forall i :: 0 <= i < |cs| ==> from <= cs[i].save <= cs[i].load && cs[i].boot <= cs[i].load)
    && (forall i, j :: 0 <= i < j < |cs| ==> cs[i].load <= cs[j].save)
  }

  /** The true time that the running life takes for the moment `e` was seen. */
  function Believed(e: Entry, boot: int): int {
    e.ts + boot
  }

  /** `checked_sub` finds an instant: the entry is not older than the clock's origin. */
  predicate Representable(e: Entry, boot: int, c: Cycle) {
    AgeSeconds(ToRecord(e, Instant(c.save, boot), Unix(c.save)), Unix(c.load)) * SECOND <= c.load - c.boot
  }

  ghost predicate AllRepresentable(e: Entry, boot: int, cs: seq<Cycle>)
    decreases |cs|
  {
    cs != [] ==>
      && Representable(e, boot, cs[0])
      && AllRepresentable(AfterCycle(e, boot, cs[0]), cs[0].boot, cs[1..])
  }

  /** The second written to disk is that of the believed moment, or the next one. */
  lemma SavedSecond(e: Entry, boot: int, at: Moment)
    requires 0 <= Believed(e, boot) <= at
    ensures Believed(e, boot) / SECOND <= ToRecord(e, Instant(at, boot), Unix(at)).unix <= Unix(at)
    ensures ToRecord(e, Instant(at, boot), Unix(at)).unix <= Believed(e, boot) / SECOND + 1
  {
    var b, age := Believed(e, boot), at - Believed(e, boot);
    assert Monus(Instant(at, boot), e.ts) == age;
    assert age / SECOND + b / SECOND <= at / SECOND <= age / SECOND + b / SECOND + 1;
  }

  /** A loaded record is believed to be from within its own second, or from the moment of the load. */
  lemma LoadedSecond(r: Record, boot: int, at: Moment)
    requires boot <= at && r.unix <= Unix(at)
    ensures var b := Believed(Revive(r, Instant(at, boot), Unix(at)), boot);
            && r.unix <= b / SECOND && b <= at
            && (AgeSeconds(r, Unix(at)) * SECOND <= at - boot ==> b / SECOND == r.unix)
  {
    assert at - (Unix(at) - r.unix) * SECOND == at % SECOND + r.unix * SECOND;
  }

  lemma OneCycle(e: Entry, boot: int, c: Cycle)
    requires 0 <= Believed(e, boot) <= c.save <= c.load && c.boot <= c.load
    ensures var b, b' := Believed(e, boot), Believed(AfterCycle(e, boot, c), c.boot);
            && b / SECOND <= b' / SECOND && b' <= c.load
            && (Representable(e, boot, c) ==> b' / SECOND <= b / SECOND + 1)
  {
    SavedSecond(e, boot, c.save);
    LoadedSecond(ToRecord(e, Instant(c.save, boot), Unix(c.save)), c.boot, c.load);
  }

  lemma {:induction false} ManyCycles(e: Entry, boot: int, cs: seq<Cycle>, from: Moment)
    requires InOrder(cs, from) && 0 <= Believed(e, boot) <= from
    ensures var last := if cs == [] then boot else cs[|cs| - 1].boot;
            var b, b' := Believed(e, boot), Believed(AfterCycles(e, boot, cs), last);
            && b / SECOND <= b' / SECOND
            && b' <= (if cs == [] then from else cs[|cs| - 1].load)
            && (AllRepresentable(e, boot, cs) ==> b' / SECOND <= b / SECOND + |cs|)
    decreases |cs|
  {
    if cs == [] {
    } else {
      OneCycle(e, boot, cs[0]);
      ManyCycles(AfterCycle(e, boot, cs[0]), cs[0].boot, cs[1..], cs[0].load);
      assert |cs| > 1 ==> cs[1..][|cs| - 2] == cs[|cs| - 1];
    }
  }

  /**
   Drift over any number of restarts: the age that the last life computes for an entry
   exceeds the true one by less than a second, so that a γ never expires more than a
   second early. If the instants stay representable, it falls short of the true one by
   less than one second per restart and one more.
   */
  lemma RestartDrift(e: Entry, boot: int, cs: seq<Cycle>, born: Moment, now: Moment)
    requires Believed(e, boot) == born && cs != [] && InOrder(cs, born) && cs[|cs| - 1].load <= now
    ensures var age := Monus(Instant(now, cs[|cs| - 1].boot), AfterCycles(e, boot, cs).ts);
            && age < now - born + SECOND
            && (AllRepresentable(e, boot, cs) ==> age > now - born - (|cs| + 1) * SECOND)
  {
    ManyCycles(e, boot, cs, born);
  }
}
