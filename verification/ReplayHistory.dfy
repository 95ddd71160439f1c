/**
 What becomes of an acceptance over several lives: it stays known through the life that made
 it, goes into the file at the next save, and comes back at the next restart, unless one of
 these loses it.
 */
module ReplayHistory {
  import opened Prelude
  import opened Runs
  import opened ReplayQueue
  import opened ReplayFile
  import opened ReplayRestarts
  import opened ReplayLives

  // ------------------------------------------------- what became of an acceptance

  /** This life knows of an acceptance of `key` at or after `born`. */
  predicate Known(w: World, key: Key, born: Moment) {
    key in w.births && w.births[key] >= born
  }

  predicate OnDisk(w: World, key: Key, born: Moment) {
    key in w.diskBirths && w.diskBirths[key] >= born
  }

  lemma ReceivedKeepsKnown(w: World, k: Key, at: Moment, w': World, key: Key, born: Moment, ttl: nat, maxSize: nat)
    requires PastBirths(w.births, w.now) && w.now <= at && Known(w, key, born)
    requires w' == Received(w, k, at, ttl, maxSize)
    ensures Known(w', key, born) && w'.diskBirths == w.diskBirths
  {
  }

  lemma WrittenKeepsKnown(w: World, at: Moment, w': World, key: Key, born: Moment, ttl: nat)
    requires Known(w, key, born) && w' == Written(w, at, ttl)
    ensures Known(w', key, born)
  {
  }

  /** No acceptance is forgotten within a life, and packets leave the file alone. */
  lemma LifeKeepsKnown(w: World, e: Event, w': World, key: Key, born: Moment, ttl: nat, maxSize: nat)
    requires PastBirths(w.births, w.now) && Possible(w, e) && !e.Restart? && Known(w, key, born)
    requires w' == Next(w, e, ttl, maxSize)
    ensures Known(w', key, born) && (!e.Save? ==> w'.diskBirths == w.diskBirths)
  {
    match e
    case Packet(k, at) => ReceivedKeepsKnown(w, k, at, w', key, born, ttl, maxSize);
    case Other(_) =>
    case Save(at) => WrittenKeepsKnown(w, at, w', key, born, ttl);
  }

  lemma {:induction false} LiveIsSaved(q: seq<Entry>, e: Entry, now: nat, nowUnix: u64, ttl: nat)
    requires e in q && !Expired(e, now, ttl)
    ensures e.key in RecordKeys(Snapshot(q, now, nowUnix, ttl))
  {
    var rs := Snapshot(q, now, nowUnix, ttl);
    if q[0] == e {
      assert rs[0].key == e.key && rs[0] in rs;
    } else {
      assert e in q[1..];
      LiveIsSaved(q[1..], e, now, nowUnix, ttl);
      var r :| r in Snapshot(q[1..], now, nowUnix, ttl) && r.key == e.key;
      assert r in rs;
    }
  }

  lemma RefusedIsLive(q: seq<Entry>, key: Key, now: nat, ttl: nat, maxSize: nat) returns (e: Entry)
    requires TimeOrdered(q) && CheckAndInsert(q, key, now, ttl, maxSize).check == Replay
    ensures e in q && e.key == key && !Expired(e, now, ttl)
  {
    var live := Sweep(q, now, ttl);
    var i :| 0 <= i < |live| && live[i].key == key;
    SweptAreLive(q, now, ttl);
    e := live[i];
    assert e == q[|q| - |live| + i];
  }

  /** A key that the cache refuses is in the snapshot that is taken at that moment. */
  lemma RefusedIsSaved(q: seq<Entry>, key: Key, now: nat, nowUnix: u64, ttl: nat, maxSize: nat)
    requires TimeOrdered(q) && CheckAndInsert(q, key, now, ttl, maxSize).check == Replay
    ensures key in RecordKeys(Snapshot(q, now, nowUnix, ttl))
  {
    var e := RefusedIsLive(q, key, now, ttl, maxSize);
    LiveIsSaved(q, e, now, nowUnix, ttl);
  }

  lemma SaveKeepsKnown(w: World, at: Moment, w': World, key: Key, born: Moment, ttl: nat, maxSize: nat)
    requires CacheOk(w.queue, w.life, w.births, w.boot, w.now, ttl, maxSize) && w.now <= at && Known(w, key, born)
    requires w' == Written(w, at, ttl)
    ensures || at - born + SECOND > ttl
            || Overtaken(w.life, key, Capacity(maxSize))
            || (Known(w', key, born) && OnDisk(w', key, born))
  {
    if at - born + SECOND <= ttl {
      RefusedNow(w, key, at, ttl, maxSize);
      if Refuses(w, key, at, ttl, maxSize) {
        RefusedIsSaved(w.queue, key, Instant(at, w.boot), Unix(at), ttl, maxSize);
      }
    }
  }

  lemma RestartKeepsKnown(w: World, at: Moment, boot: int, w': World, key: Key, born: Moment, ttl: nat, maxSize: nat)
    requires DiskOk(w.disk, w.diskBirths, w.now) && w.now <= at && boot <= at && OnDisk(w, key, born)
    requires w' == Restarted(w, at, boot, ttl, maxSize)
    ensures || at - born + SECOND > ttl
            || LeftOut(w, at, boot, key, ttl, maxSize)
            || (Known(w', key, born) && OnDisk(w', key, born))
  {
    if at - born + SECOND <= ttl {
      RestoredNow(w, at, boot, key, ttl, maxSize);
    }
  }

  // ----------------------------------------------------- acceptances over a run

  ghost predicate ClockPast(at: Moment, i: nat, m: nat, w: World) {
    m > i ==> at <= w.now
  }

  lemma NextSetsClock(w: World, e: Event, w': World, ttl: nat, maxSize: nat)
    requires w' == Next(w, e, ttl, maxSize)
    ensures w'.now == e.at
  {
  }

  lemma ClockStep(run: seq<Event>, i: nat, m: nat, w: World, w': World, ttl: nat, maxSize: nat)
    requires i < |run| && m < |run| && Possible(w, run[m]) && ClockPast(run[i].at, i, m, w)
    requires w' == Next(w, run[m], ttl, maxSize)
    ensures ClockPast(run[i].at, i, m + 1, w')
  {
    NextSetsClock(w, run[m], w', ttl, maxSize);
  }

  lemma TimeAscends(w: World, run: seq<Event>, i: nat, j: nat, ttl: nat, maxSize: nat)
    requires ValidRun(w, run, ttl, maxSize) && i < j <= |run|
    ensures run[i].at <= WorldAt(w, run, j, ttl, maxSize).now
  {
    var step := StepOf(ttl, maxSize);
    var inv, ok := (m: nat, v) => ClockPast(run[i].at, i, m, v), (m: nat, v) => m < |run| && Possible(v, run[m]);
    forall m: nat, v | m < j ensures Keeps(step, inv, ok, run, m, v) {
      if inv(m, v) && ok(m, v) {
        ClockStep(run, i, m, v, step(v, run[m]), ttl, maxSize);
      }
    }
    forall m: nat | m < j ensures OkAfter(step, ok, w, run, m) {
      assert PossibleAt(w, run, m, ttl, maxSize);
    }
    HoldsWhile(step, inv, ok, w, run, 0, j);
  }

  lemma EventsAscend(w: World, run: seq<Event>, i: nat, j: nat, ttl: nat, maxSize: nat)
    requires ValidRun(w, run, ttl, maxSize) && i < j < |run|
    ensures run[i].at <= run[j].at
  {
    TimeAscends(w, run, i, j, ttl, maxSize);
    assert PossibleAt(w, run, j, ttl, maxSize);
  }

  /** Event `r` is a restart that finds an acceptance of `key` in the file and does not leave it out. */
  ghost predicate Restores(run: seq<Event>, r: nat, w: World, key: Key, born: Moment, ttl: nat, maxSize: nat) {
    && r < |run| && run[r].Restart? && OnDisk(w, key, born)
    && run[r].at - born + SECOND <= ttl && !LeftOut(w, run[r].at, run[r].boot, key, ttl, maxSize)
  }

  lemma RestoredStep(run: seq<Event>, r: nat, w: World, w': World, key: Key, born: Moment, ttl: nat, maxSize: nat)
    requires r < |run| && DiskOk(w.disk, w.diskBirths, w.now) && Possible(w, run[r])
    requires Restores(run, r, w, key, born, ttl, maxSize) && w' == Next(w, run[r], ttl, maxSize)
    ensures Known(w', key, born)
  {
    RestartKeepsKnown(w, run[r].at, run[r].boot, w', key, born, ttl, maxSize);
  }

  /** What the last restart restored is still known. */
  lemma KnownSinceRestart(w: World, run: seq<Event>, r: nat, k: nat, key: Key, born: Moment, ttl: nat, maxSize: nat)
    requires Inv(w, ttl, maxSize) && ValidRun(w, run, ttl, maxSize) && r < k <= |run|
    requires Restores(run, r, WorldAt(w, run, r, ttl, maxSize), key, born, ttl, maxSize)
    requires forall m :: r < m < k ==> !run[m].Restart?
    ensures Known(WorldAt(w, run, k, ttl, maxSize), key, born)
  {
    var step := StepOf(ttl, maxSize);
    var inv := (m: nat, v) => Inv(v, ttl, maxSize) && (m > r ==> Known(v, key, born));
    var ok := (m: nat, v) => && m < |run| && Possible(v, run[m])
                             && (m == r ==> Restores(run, r, v, key, born, ttl, maxSize));
    forall m: nat, v | m < k ensures Keeps(step, inv, ok, run, m, v) {
      if inv(m, v) && ok(m, v) {
        NextKeepsInv(v, run[m], ttl, maxSize);
        if m == r {
          RestoredStep(run, r, v, step(v, run[m]), key, born, ttl, maxSize);
        } else if m > r {
          LifeKeepsKnown(v, run[m], step(v, run[m]), key, born, ttl, maxSize);
        }
      }
    }
    forall m: nat | m < k ensures OkAfter(step, ok, w, run, m) {
      assert PossibleAt(w, run, m, ttl, maxSize);
    }
    HoldsWhile(step, inv, ok, w, run, 0, k);
  }

  /** The events after `i` and before `m` do not save the cache. */
  predicate Unsaved(run: seq<Event>, i: nat, m: nat)
    requires m <= |run|
  {
    forall n :: i < n < m ==> !run[n].Save?
  }

  /**
   What event `m` can do to the acceptance of event `i`: a save leaves out what others have
   overtaken, and a restart loses what was not saved or what the full cache has no room for.
   */
  ghost predicate Loses(run: seq<Event>, i: nat, m: nat, w: World, key: Key, ttl: nat, maxSize: nat)
    requires m < |run|
  {
    match run[m]
    case Packet(_, _) => false
    case Other(_) => false
    case Save(_) => Overtaken(w.life, key, Capacity(maxSize))
    case Restart(at, boot) => Unsaved(run, i, m) || LeftOut(w, at, boot, key, ttl, maxSize)
  }

  /** This life knows of the acceptance of event `i`, and so does the file if there was a save since. */
  ghost predicate Standing(run: seq<Event>, i: nat, m: nat, w: World, key: Key, born: Moment)
    requires m <= |run|
  {
    Known(w, key, born) && (OnDisk(w, key, born) || Unsaved(run, i, m))
  }

  lemma LifeKeepsStanding(run: seq<Event>, i: nat, m: nat, w: World, w': World, key: Key, born: Moment, ttl: nat,
                          maxSize: nat)
    requires i < m < |run| && PastBirths(w.births, w.now) && Possible(w, run[m]) && Standing(run, i, m, w, key, born)
    requires !run[m].Restart? && !run[m].Save? && w' == Next(w, run[m], ttl, maxSize)
    ensures Standing(run, i, m + 1, w', key, born)
  {
    LifeKeepsKnown(w, run[m], w', key, born, ttl, maxSize);
  }

  lemma SaveKeepsStanding(run: seq<Event>, i: nat, m: nat, w: World, w': World, key: Key, born: Moment, ttl: nat,
                          maxSize: nat)
    requires i < m < |run| && CacheOk(w.queue, w.life, w.births, w.boot, w.now, ttl, maxSize)
    requires Possible(w, run[m]) && Standing(run, i, m, w, key, born)
    requires run[m].Save? && w' == Written(w, run[m].at, ttl)
    ensures || Standing(run, i, m + 1, w', key, born)
            || run[m].at - born + SECOND > ttl
            || Loses(run, i, m, w, key, ttl, maxSize)
  {
    SaveKeepsKnown(w, run[m].at, w', key, born, ttl, maxSize);
  }

  lemma RestartKeepsStanding(run: seq<Event>, i: nat, m: nat, w: World, w': World, key: Key, born: Moment, ttl: nat,
                             maxSize: nat)
    requires i < m < |run| && DiskOk(w.disk, w.diskBirths, w.now)
    requires Possible(w, run[m]) && Standing(run, i, m, w, key, born)
    requires run[m].Restart? && w' == Restarted(w, run[m].at, run[m].boot, ttl, maxSize)
    ensures || Standing(run, i, m + 1, w', key, born)
            || run[m].at - born + SECOND > ttl
            || Loses(run, i, m, w, key, ttl, maxSize)
  {
    if OnDisk(w, key, born) {
      RestartKeepsKnown(w, run[m].at, run[m].boot, w', key, born, ttl, maxSize);
    }
  }

  lemma StandingStep(run: seq<Event>, i: nat, m: nat, w: World, w': World, key: Key, born: Moment, ttl: nat,
                     maxSize: nat)
    requires i < m < |run| && Inv(w, ttl, maxSize) && Possible(w, run[m]) && Standing(run, i, m, w, key, born)
    requires w' == Next(w, run[m], ttl, maxSize)
    ensures || Standing(run, i, m + 1, w', key, born)
            || run[m].at - born + SECOND > ttl
            || Loses(run, i, m, w, key, ttl, maxSize)
  {
    if run[m].Save? {
      SaveKeepsStanding(run, i, m, w, w', key, born, ttl, maxSize);
    } else if run[m].Restart? {
      RestartKeepsStanding(run, i, m, w, w', key, born, ttl, maxSize);
    } else {
      LifeKeepsStanding(run, i, m, w, w', key, born, ttl, maxSize);
    }
  }

  ghost predicate LosesAt(w: World, run: seq<Event>, i: nat, m: nat, key: Key, ttl: nat, maxSize: nat) {
    m < |run| && Loses(run, i, m, WorldAt(w, run, m, ttl, maxSize), key, ttl, maxSize)
  }

  /** Event `i` is a packet of `key` that the cache accepts. */
  ghost predicate Accepts(run: seq<Event>, i: nat, w: World, key: Key, ttl: nat, maxSize: nat) {
    i < |run| && run[i].Packet? && run[i].key == key && !Refuses(w, key, run[i].at, ttl, maxSize)
  }

  ghost predicate AcceptsAt(w: World, run: seq<Event>, i: nat, key: Key, ttl: nat, maxSize: nat) {
    i < |run| && Accepts(run, i, WorldAt(w, run, i, ttl, maxSize), key, ttl, maxSize)
  }

  lemma AcceptedStands(run: seq<Event>, i: nat, w: World, w': World, key: Key, ttl: nat, maxSize: nat)
    requires Accepts(run, i, w, key, ttl, maxSize) && w' == Next(w, run[i], ttl, maxSize)
    ensures Standing(run, i, i + 1, w', key, run[i].at)
  {
  }

  /** Event `m` does not lose the acceptance of event `i`. */
  ghost predicate Spares(run: seq<Event>, i: nat, m: nat, w: World, key: Key, ttl: nat, maxSize: nat)
    requires i < |run|
  {
    && m < |run| && Possible(w, run[m])
    && (m == i ==> Accepts(run, i, w, key, ttl, maxSize))
    && (m > i ==> run[m].at - run[i].at + SECOND <= ttl && !Loses(run, i, m, w, key, ttl, maxSize))
  }

  ghost predicate InvStanding(run: seq<Event>, i: nat, m: nat, w: World, key: Key, ttl: nat, maxSize: nat)
    requires i < |run|
  {
    m <= |run| && Inv(w, ttl, maxSize) && (m > i ==> Standing(run, i, m, w, key, run[i].at))
  }

  lemma SparedStands(run: seq<Event>, i: nat, m: nat, w: World, w': World, key: Key, ttl: nat, maxSize: nat)
    requires i < |run| && InvStanding(run, i, m, w, key, ttl, maxSize) && Spares(run, i, m, w, key, ttl, maxSize)
    requires w' == Next(w, run[m], ttl, maxSize)
    ensures InvStanding(run, i, m + 1, w', key, ttl, maxSize)
  {
    NextKeepsInv(w, run[m], ttl, maxSize);
    if m == i {
      AcceptedStands(run, i, w, w', key, ttl, maxSize);
    } else if m > i {
      StandingStep(run, i, m, w, w', key, run[i].at, ttl, maxSize);
    }
  }

  lemma SparedAt(w: World, run: seq<Event>, i: nat, m: nat, j: nat, key: Key, ttl: nat, maxSize: nat)
    requires ValidRun(w, run, ttl, maxSize) && i < j < |run| && m < j && run[j].at - run[i].at + SECOND <= ttl
    requires AcceptsAt(w, run, i, key, ttl, maxSize) && (i < m ==> !LosesAt(w, run, i, m, key, ttl, maxSize))
    ensures Spares(run, i, m, WorldAt(w, run, m, ttl, maxSize), key, ttl, maxSize)
  {
    EventsAscend(w, run, m, j, ttl, maxSize);
    assert PossibleAt(w, run, m, ttl, maxSize);
  }

  lemma StandsUntil(w: World, run: seq<Event>, i: nat, j: nat, key: Key, ttl: nat, maxSize: nat)
    requires Inv(w, ttl, maxSize) && ValidRun(w, run, ttl, maxSize) && i < j < |run|
    requires AcceptsAt(w, run, i, key, ttl, maxSize) && run[j].at - run[i].at + SECOND <= ttl
    requires forall m :: i < m < j ==> !LosesAt(w, run, i, m, key, ttl, maxSize)
    ensures InvStanding(run, i, j, WorldAt(w, run, j, ttl, maxSize), key, ttl, maxSize)
  {
    var step := StepOf(ttl, maxSize);
    var inv := (m: nat, v) => InvStanding(run, i, m, v, key, ttl, maxSize);
    var ok := (m: nat, v) => Spares(run, i, m, v, key, ttl, maxSize);
    forall m: nat, v | m < j ensures Keeps(step, inv, ok, run, m, v) {
      if inv(m, v) && ok(m, v) {
        SparedStands(run, i, m, v, step(v, run[m]), key, ttl, maxSize);
      }
    }
    forall m: nat | m < j ensures OkAfter(step, ok, w, run, m) {
      SparedAt(w, run, i, m, j, key, ttl, maxSize);
    }
    HoldsWhile(step, inv, ok, w, run, 0, j);
  }

  lemma KnownIsRefused(w: World, key: Key, born: Moment, at: Moment, ttl: nat, maxSize: nat)
    requires CacheOk(w.queue, w.life, w.births, w.boot, w.now, ttl, maxSize) && w.now <= at
    requires Known(w, key, born) && at - born + SECOND <= ttl
    ensures Refuses(w, key, at, ttl, maxSize) || Overtaken(w.life, key, Capacity(maxSize))
  {
    RefusedNow(w, key, at, ttl, maxSize);
  }

  // ------------------------------------------------------- results over several lives

  /**
   From the file to the present: a γ of the file that event `r` loads is refused as long as
   this life goes on and its true age is not within a second of the lifetime, unless that
   restart left it out or others have overtaken it since.
   */
  lemma FileKeyRefused(w: World, run: seq<Event>, r: nat, key: Key, at: Moment, ttl: nat, maxSize: nat)
    requires Inv(w, ttl, maxSize) && ValidRun(w, run, ttl, maxSize)
    requires r < |run| && run[r].Restart? && forall m :: r < m < |run| ==> !run[m].Restart?
    requires var loaded := WorldAt(w, run, r, ttl, maxSize).diskBirths;
             && WorldAt(w, run, |run|, ttl, maxSize).now <= at && key in loaded && at - loaded[key] + SECOND <= ttl
    ensures var v := WorldAt(w, run, |run|, ttl, maxSize);
            || Refuses(v, key, at, ttl, maxSize)
            || Overtaken(v.life, key, Capacity(maxSize))
            || LeftOut(WorldAt(w, run, r, ttl, maxSize), run[r].at, run[r].boot, key, ttl, maxSize)
  {
    var u, v := WorldAt(w, run, r, ttl, maxSize), WorldAt(w, run, |run|, ttl, maxSize);
    if !LeftOut(u, run[r].at, run[r].boot, key, ttl, maxSize) {
      TimeAscends(w, run, r, |run|, ttl, maxSize);
      KnownSinceRestart(w, run, r, |run|, key, u.diskBirths[key], ttl, maxSize);
      RunKeepsInv(w, run, |run|, ttl, maxSize);
      KnownIsRefused(v, key, u.diskBirths[key], at, ttl, maxSize);
    }
  }

  /**
   At most once over all lives: if a γ is accepted twice in a run of packets, saves and
   restarts, then its first acceptance was, in truth, within a second of its lifetime or past
   it, or others had overtaken it in the life of the second, or some event between lost it: a
   save after it had been overtaken, a restart before any save, or a restart that left it out.
   */
  lemma AcceptedAgain(w: World, run: seq<Event>, i: nat, j: nat, key: Key, ttl: nat, maxSize: nat)
    requires Inv(w, ttl, maxSize) && ValidRun(w, run, ttl, maxSize) && i < j
    requires AcceptsAt(w, run, i, key, ttl, maxSize) && AcceptsAt(w, run, j, key, ttl, maxSize)
    ensures || run[j].at - run[i].at + SECOND > ttl
            || Overtaken(WorldAt(w, run, j, ttl, maxSize).life, key, Capacity(maxSize))
            || exists m :: i < m < j && LosesAt(w, run, i, m, key, ttl, maxSize)
  {
    if run[j].at - run[i].at + SECOND <= ttl && forall m :: i < m < j ==> !LosesAt(w, run, i, m, key, ttl, maxSize) {
      StandsUntil(w, run, i, j, key, ttl, maxSize);
      assert PossibleAt(w, run, j, ttl, maxSize);
      KnownIsRefused(WorldAt(w, run, j, ttl, maxSize), key, run[i].at, run[j].at, ttl, maxSize);
    }
  }
}
