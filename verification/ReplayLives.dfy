/**
 The replay cache over runs of packets, saves and restarts. Each life of the relay loads the
 file that an earlier one wrote; what it restored and then accepted is its log, in the order
 and with the instants of this life, while an observer knows the true moments of acceptance.
 */
module ReplayLives {
  import opened Prelude
  import opened Runs
  import opened ReplayQueue
  import opened ReplayRestore
  import opened ReplayFile
  import opened ReplayRestarts

  /** `Other` is anything that touches neither the cache nor the file. */
  datatype Event =
    | Packet(key: Key, at: Moment)
    | Other(at: Moment)
    | Save(at: Moment)
    | Restart(at: Moment, boot: int)

  /**
   The relay's cache and its file, with what an observer knows: `births` and `diskBirths` give
   the true moment at which each γ of this life, and of the file, was accepted as fresh, and
   `life` lists what this life restored and then accepted, oldest first.
   */
  datatype World = World(
    queue: seq<Entry>,
    boot: int,
    disk: Option<Bytes>,
    now: Moment,
    births: map<Key, Moment>,
    diskBirths: map<Key, Moment>,
    life: seq<Entry>)

  function Records(disk: Option<Bytes>): seq<Record> {
    if disk.Some? && ParseFile(disk.value).Accepted? then ParseFile(disk.value).records else []
  }

  ghost function RecordKeys(rs: seq<Record>): set<Key> {
    set r | r in rs :: r.key
  }

  /** One check of the cache; what it accepts is born now and joins this life. */
  function Received(w: World, key: Key, at: Moment, ttl: nat, maxSize: nat): World {
    var v := CheckAndInsert(w.queue, key, Instant(at, w.boot), ttl, maxSize);
    if v.check == Replay then w.(queue := v.queue, now := at)
    else w.(queue := v.queue, now := at, births := w.births[key := at],
            life := w.life + [Entry(key, Instant(at, w.boot))])
  }

  ghost function Written(w: World, at: Moment, ttl: nat): World {
    var rs := Snapshot(w.queue, Instant(at, w.boot), Unix(at), ttl);
    w.(disk := Some(EncodeFile(rs)), now := at,
       diskBirths := map k | k in w.births && k in RecordKeys(rs) :: w.births[k])
  }

  ghost function Restarted(w: World, at: Moment, boot: int, ttl: nat, maxSize: nat): World {
    var q := Adopted([], Records(w.disk), Instant(at, boot), Unix(at), ttl, maxSize);
    w.(queue := q, boot := boot, now := at, life := q,
       births := map k | k in w.diskBirths && k in Keys(q) :: w.diskBirths[k])
  }

  ghost function Next(w: World, e: Event, ttl: nat, maxSize: nat): World {
    match e
    case Packet(key, at) => Received(w, key, at, ttl, maxSize)
    case Other(at) => w.(now := at)
    case Save(at) => Written(w, at, ttl)
    case Restart(at, boot) => Restarted(w, at, boot, ttl, maxSize)
  }

  ghost predicate Possible(w: World, e: Event) {
    w.now <= e.at && (e.Restart? ==> e.boot <= e.at)
  }

  ghost function StepOf(ttl: nat, maxSize: nat): (World, Event) -> World {
    (w: World, e: Event) => Next(w, e, ttl, maxSize)
  }

  /** The world after the first `k` events. */
  ghost function WorldAt(w: World, run: seq<Event>, k: nat, ttl: nat, maxSize: nat): World
    requires k <= |run|
  {
    Along(StepOf(ttl, maxSize), w, run, k)
  }

  ghost predicate PossibleAt(w: World, run: seq<Event>, k: nat, ttl: nat, maxSize: nat) {
    k < |run| && Possible(WorldAt(w, run, k, ttl, maxSize), run[k])
  }

  ghost predicate ValidRun(w: World, run: seq<Event>, ttl: nat, maxSize: nat) {
    forall k: nat :: k < |run| ==> PossibleAt(w, run, k, ttl, maxSize)
  }

  function FirstLife(at: Moment, boot: int): World {
    World([], boot, None, at, map[], map[], [])
  }

  // --------------------------------------------------------------- invariant

  /** The entry is not believed to be from an earlier second than the γ was really accepted in. */
  ghost predicate Dated(e: Entry, boot: int, births: map<Key, Moment>) {
    && e.key in births
    && births[e.key] / SECOND <= Believed(e, boot) / SECOND
    && 0 <= Believed(e, boot)
  }

  ghost predicate AllDated(q: seq<Entry>, boot: int, births: map<Key, Moment>) {
    forall e :: e in q ==> Dated(e, boot, births)
  }

  ghost predicate DatedAt(life: seq<Entry>, i: int, k: Key, boot: int, births: map<Key, Moment>) {
    0 <= i < |life| && life[i].key == k && Dated(life[i], boot, births)
  }

  /** Every γ with a birth stands in the log of this life, dated. */
  ghost predicate Recalled(life: seq<Entry>, boot: int, births: map<Key, Moment>) {
    forall k :: k in births ==> exists i :: DatedAt(life, i, k, boot, births)
  }

  ghost predicate PastBirths(births: map<Key, Moment>, now: Moment) {
    forall k :: k in births ==> births[k] <= now
  }

  ghost predicate BirthsOk(q: seq<Entry>, life: seq<Entry>, births: map<Key, Moment>, boot: int, now: Moment) {
    AllDated(q, boot, births) && Recalled(life, boot, births) && PastBirths(births, now)
  }

  ghost predicate CacheOk(q: seq<Entry>, life: seq<Entry>, births: map<Key, Moment>, boot: int, now: Moment,
                          ttl: nat, maxSize: nat) {
    && boot <= now && Tracks(q, life, Instant(now, boot), ttl, Capacity(maxSize))
    && BirthsOk(q, life, births, boot, now)
  }

  ghost predicate DiskOk(disk: Option<Bytes>, diskBirths: map<Key, Moment>, now: Moment) {
    && (disk.Some? ==> ParseFile(disk.value).Accepted?)
    && RecordKeys(Records(disk)) == diskBirths.Keys && PastBirths(diskBirths, now)
    && forall r :: r in Records(disk) ==> diskBirths[r.key] / SECOND <= r.unix <= Unix(now)
  }

  ghost predicate Inv(w: World, ttl: nat, maxSize: nat) {
    && CacheOk(w.queue, w.life, w.births, w.boot, w.now, ttl, maxSize)
    && DiskOk(w.disk, w.diskBirths, w.now)
  }

  // ----------------------------------------------------------- events keep it

  lemma LaterCache(q: seq<Entry>, life: seq<Entry>, births: map<Key, Moment>, boot: int, now: Moment, at: Moment,
                   ttl: nat, maxSize: nat)
    requires CacheOk(q, life, births, boot, now, ttl, maxSize) && now <= at
    ensures CacheOk(q, life, births, boot, at, ttl, maxSize)
  {
    TracksLater(q, life, Instant(now, boot), Instant(at, boot), ttl, Capacity(maxSize));
  }

  lemma LaterDisk(disk: Option<Bytes>, diskBirths: map<Key, Moment>, now: Moment, at: Moment)
    requires DiskOk(disk, diskBirths, now) && now <= at
    ensures DiskOk(disk, diskBirths, at)
  {
  }

  /** `q'` holds entries of `q` and perhaps `added`. */
  ghost predicate Within(q': seq<Entry>, q: seq<Entry>, added: Entry) {
    forall e :: e in q' ==> e in q || e == added
  }

  lemma SuffixWithin(q: seq<Entry>, n: nat)
    requires n <= |q|
    ensures forall e :: e in q[n..] ==> e in q
  {
  }

  /** What a check leaves in the queue was there before or is what it added. */
  lemma CheckedWithin(q: seq<Entry>, key: Key, now: nat, ttl: nat, maxSize: nat)
    ensures var v := CheckAndInsert(q, key, now, ttl, maxSize);
            && (v.check == Fresh ==> Within(v.queue, q, Entry(key, now)) && Entry(key, now) in v.queue)
            && (v.check == Replay ==> forall e :: e in v.queue ==> e in q)
  {
    var live := Sweep(q, now, ttl);
    SuffixWithin(q, |q| - |live|);
    if live != [] {
      SuffixWithin(live, 1);
    }
  }

  lemma OtherEntry(q: seq<Entry>, e: Entry, f: Entry)
    requires DistinctKeys(q) && e in q && f in q && e != f
    ensures e.key != f.key
  {
    var i :| 0 <= i < |q| && q[i] == e;
    var j :| 0 <= j < |q| && q[j] == f;
  }

  lemma AcceptedDated(q: seq<Entry>, q': seq<Entry>, added: Entry, boot: int, births: map<Key, Moment>, at: Moment)
    requires AllDated(q, boot, births) && Within(q', q, added) && added in q' && DistinctKeys(q')
    requires Believed(added, boot) == at
    ensures AllDated(q', boot, births[added.key := at])
  {
    forall e | e in q' ensures Dated(e, boot, births[added.key := at]) {
      if e != added {
        OtherEntry(q', e, added);
      }
    }
  }

  lemma AcceptedRecalled(life: seq<Entry>, boot: int, births: map<Key, Moment>, added: Entry, at: Moment)
    requires Recalled(life, boot, births) && boot <= at && added.ts == Instant(at, boot)
    ensures Recalled(life + [added], boot, births[added.key := at])
  {
    var life', births' := life + [added], births[added.key := at];
    forall k | k in births' ensures exists i :: DatedAt(life', i, k, boot, births') {
      if k == added.key {
        assert DatedAt(life', |life|, k, boot, births');
      } else {
        var i :| DatedAt(life, i, k, boot, births);
        assert DatedAt(life', i, k, boot, births');
      }
    }
  }

  lemma AcceptedBirths(q: seq<Entry>, life: seq<Entry>, births: map<Key, Moment>, boot: int, now: Moment,
                       q': seq<Entry>, added: Entry, at: Moment)
    requires BirthsOk(q, life, births, boot, now) && boot <= now <= at && added.ts == Instant(at, boot)
    requires Within(q', q, added) && added in q' && DistinctKeys(q')
    ensures BirthsOk(q', life + [added], births[added.key := at], boot, at)
  {
    AcceptedDated(q, q', added, boot, births, at);
    AcceptedRecalled(life, boot, births, added, at);
  }

  lemma AcceptedCache(q: seq<Entry>, life: seq<Entry>, births: map<Key, Moment>, boot: int, now: Moment,
                      v: Verdict, added: Entry, at: Moment, ttl: nat, maxSize: nat)
    requires CacheOk(q, life, births, boot, now, ttl, maxSize) && now <= at && added.ts == Instant(at, boot)
    requires v == CheckAndInsert(q, added.key, added.ts, ttl, maxSize) && v.check == Fresh
    ensures CacheOk(v.queue, life + [added], births[added.key := at], boot, at, ttl, maxSize)
  {
    TracksAccepted(q, life, Instant(now, boot), added, v, ttl, maxSize);
    CheckedWithin(q, added.key, added.ts, ttl, maxSize);
    AcceptedBirths(q, life, births, boot, now, v.queue, added, at);
  }

  lemma RefusedCache(q: seq<Entry>, life: seq<Entry>, births: map<Key, Moment>, boot: int, now: Moment,
                     v: Verdict, key: Key, at: Moment, ttl: nat, maxSize: nat)
    requires CacheOk(q, life, births, boot, now, ttl, maxSize) && now <= at
    requires v == CheckAndInsert(q, key, Instant(at, boot), ttl, maxSize) && v.check == Replay
    ensures CacheOk(v.queue, life, births, boot, at, ttl, maxSize)
  {
    TracksRefused(q, life, Instant(now, boot), key, Instant(at, boot), v, ttl, maxSize);
    CheckedWithin(q, key, Instant(at, boot), ttl, maxSize);
  }

  lemma ReceivedCache(w: World, key: Key, at: Moment, ttl: nat, maxSize: nat, w': World)
    requires CacheOk(w.queue, w.life, w.births, w.boot, w.now, ttl, maxSize) && w.now <= at
    requires w' == Received(w, key, at, ttl, maxSize)
    ensures CacheOk(w'.queue, w'.life, w'.births, w'.boot, w'.now, ttl, maxSize)
  {
    var now := Instant(at, w.boot);
    var v := CheckAndInsert(w.queue, key, now, ttl, maxSize);
    if v.check == Fresh {
      AcceptedCache(w.queue, w.life, w.births, w.boot, w.now, v, Entry(key, now), at, ttl, maxSize);
    } else {
      RefusedCache(w.queue, w.life, w.births, w.boot, w.now, v, key, at, ttl, maxSize);
    }
  }

  lemma {:induction false} SnapshotOrigin(q: seq<Entry>, now: nat, nowUnix: u64, ttl: nat)
    ensures forall r :: r in Snapshot(q, now, nowUnix, ttl) ==> exists e :: e in q && ToRecord(e, now, nowUnix) == r
  {
    if q == [] {
    } else {
      SnapshotOrigin(q[1..], now, nowUnix, ttl);
      assert q == [q[0]] + q[1..];
    }
  }

  lemma BelievedPast(q: seq<Entry>, e: Entry, boot: int, now: Moment, births: map<Key, Moment>)
    requires boot <= now && NoneAfter(q, now - boot) && AllDated(q, boot, births) && e in q
    ensures 0 <= Believed(e, boot) <= now
  {
    var i :| 0 <= i < |q| && q[i] == e;
    assert Dated(e, boot, births);
  }

  /** Every record of a snapshot is of a γ with a birth, and not from an earlier second. */
  lemma SnapshotDated(q: seq<Entry>, boot: int, now: Moment, births: map<Key, Moment>, at: Moment, ttl: nat, r: Record)
    requires boot <= now <= at && NoneAfter(q, now - boot) && AllDated(q, boot, births)
    requires r in Snapshot(q, Instant(at, boot), Unix(at), ttl)
    ensures r.key in births && births[r.key] / SECOND <= r.unix <= Unix(at)
  {
    SnapshotOrigin(q, Instant(at, boot), Unix(at), ttl);
    var e :| e in q && ToRecord(e, Instant(at, boot), Unix(at)) == r;
    BelievedPast(q, e, boot, now, births);
    SavedSecond(e, boot, at);
  }

  lemma EncodedRecords(rs: seq<Record>)
    ensures ParseFile(EncodeFile(rs)).Accepted? && Records(Some(EncodeFile(rs))) == rs
  {
    ParseOfEncode(rs);
  }

  lemma EncodedDisk(rs: seq<Record>, births: map<Key, Moment>, at: Moment)
    requires PastBirths(births, at)
    requires forall r :: r in rs ==> r.key in births && births[r.key] / SECOND <= r.unix <= Unix(at)
    ensures DiskOk(Some(EncodeFile(rs)), map k | k in births && k in RecordKeys(rs) :: births[k], at)
  {
    EncodedRecords(rs);
  }

  lemma WrittenDisk(w: World, at: Moment, ttl: nat, maxSize: nat, w': World)
    requires CacheOk(w.queue, w.life, w.births, w.boot, w.now, ttl, maxSize) && w.now <= at && w' == Written(w, at, ttl)
    ensures DiskOk(w'.disk, w'.diskBirths, at)
  {
    var rs := Snapshot(w.queue, Instant(at, w.boot), Unix(at), ttl);
    forall r | r in rs ensures r.key in w.births && w.births[r.key] / SECOND <= r.unix <= Unix(at) {
      SnapshotDated(w.queue, w.boot, w.now, w.births, at, ttl, r);
    }
    EncodedDisk(rs, w.births, at);
  }

  lemma RestoredDated(w: World, at: Moment, boot: int, ttl: nat, maxSize: nat, w': World)
    requires DiskOk(w.disk, w.diskBirths, w.now) && w.now <= at && boot <= at
    requires w' == Restarted(w, at, boot, ttl, maxSize)
    ensures AllDated(w'.queue, boot, w'.births)
  {
    var rs, now := Records(w.disk), Instant(at, boot);
    RestoreKeepsTheNewest([], rs, now, Unix(at), ttl, maxSize);
    forall e | e in w'.queue ensures Dated(e, boot, w'.births) {
      var r :| r in rs && r.key == e.key && Live(r, Unix(at), ttl) && RestoredTs(r, now, Unix(at)) == e.ts;
      LoadedSecond(r, boot, at);
      assert r.key in RecordKeys(rs);
    }
  }

  lemma RestoredRecalled(q: seq<Entry>, boot: int, births: map<Key, Moment>)
    requires AllDated(q, boot, births) && births.Keys <= Keys(q)
    ensures Recalled(q, boot, births)
  {
    forall k | k in births ensures exists i :: DatedAt(q, i, k, boot, births) {
      var e :| e in q && e.key == k;
      var i :| 0 <= i < |q| && q[i] == e;
      assert DatedAt(q, i, k, boot, births);
    }
  }

  lemma RestartedCache(w: World, at: Moment, boot: int, ttl: nat, maxSize: nat, w': World)
    requires DiskOk(w.disk, w.diskBirths, w.now) && w.now <= at && boot <= at
    requires w' == Restarted(w, at, boot, ttl, maxSize)
    ensures CacheOk(w'.queue, w'.life, w'.births, w'.boot, w'.now, ttl, maxSize)
  {
    RestoredQueue(Records(w.disk), Instant(at, boot), Unix(at), ttl, maxSize);
    TracksItself(w'.queue, Instant(at, boot), ttl, Capacity(maxSize));
    RestoredDated(w, at, boot, ttl, maxSize, w');
    RestoredRecalled(w'.queue, boot, w'.births);
  }

  lemma NextKeepsInv(w: World, e: Event, ttl: nat, maxSize: nat)
    requires Inv(w, ttl, maxSize) && Possible(w, e)
    ensures Inv(Next(w, e, ttl, maxSize), ttl, maxSize)
  {
    LaterCache(w.queue, w.life, w.births, w.boot, w.now, e.at, ttl, maxSize);
    LaterDisk(w.disk, w.diskBirths, w.now, e.at);
    match e
    case Packet(key, at) => ReceivedCache(w, key, at, ttl, maxSize, Received(w, key, at, ttl, maxSize));
    case Other(_) =>
    case Save(at) => WrittenDisk(w, at, ttl, maxSize, Written(w, at, ttl));
    case Restart(at, boot) => RestartedCache(w, at, boot, ttl, maxSize, Restarted(w, at, boot, ttl, maxSize));
  }

  lemma FirstLifeInv(at: Moment, boot: int, ttl: nat, maxSize: nat)
    requires boot <= at
    ensures Inv(FirstLife(at, boot), ttl, maxSize)
  {
    TracksItself([], Instant(at, boot), ttl, Capacity(maxSize));
  }

  lemma RunKeepsInv(w: World, run: seq<Event>, k: nat, ttl: nat, maxSize: nat)
    requires Inv(w, ttl, maxSize) && ValidRun(w, run, ttl, maxSize) && k <= |run|
    ensures Inv(WorldAt(w, run, k, ttl, maxSize), ttl, maxSize)
  {
    var step := StepOf(ttl, maxSize);
    var inv, ok := (_, v) => Inv(v, ttl, maxSize), (m: nat, v) => m < |run| && Possible(v, run[m]);
    forall m: nat, v | m < k ensures Keeps(step, inv, ok, run, m, v) {
      if inv(m, v) && ok(m, v) {
        NextKeepsInv(v, run[m], ttl, maxSize);
      }
    }
    forall m: nat | m < k ensures OkAfter(step, ok, w, run, m) {
      assert PossibleAt(w, run, m, ttl, maxSize);
    }
    HoldsWhile(step, inv, ok, w, run, 0, k);
  }

  // -------------------------------------------------------------- one moment

  predicate Refuses(w: World, key: Key, at: Moment, ttl: nat, maxSize: nat) {
    CheckAndInsert(w.queue, key, Instant(at, w.boot), ttl, maxSize).check == Replay
  }

  /** An entry that is expired by its stamp is, in truth, within a second of its lifetime or past it. */
  lemma LiveInTruth(e: Entry, boot: int, births: map<Key, Moment>, at: Moment, ttl: nat)
    requires boot <= at && Dated(e, boot, births) && at - births[e.key] + SECOND <= ttl
    ensures at - boot - e.ts <= ttl
  {
  }

  lemma RefusedNow(w: World, key: Key, at: Moment, ttl: nat, maxSize: nat)
    requires CacheOk(w.queue, w.life, w.births, w.boot, w.now, ttl, maxSize) && w.now <= at
    requires key in w.births && at - w.births[key] + SECOND <= ttl
    ensures Refuses(w, key, at, ttl, maxSize) || Overtaken(w.life, key, Capacity(maxSize))
  {
    var i :| DatedAt(w.life, i, key, w.boot, w.births);
    LiveInTruth(w.life[i], w.boot, w.births, at, ttl);
    TracksRefuses(w.queue, w.life, Instant(w.now, w.boot), i, Instant(at, w.boot), ttl, maxSize);
  }

  lemma DiskKeyIsNew(w: World, at: Moment, key: Key, ttl: nat)
    requires DiskOk(w.disk, w.diskBirths, w.now) && w.now <= at
    requires key in w.diskBirths && at - w.diskBirths[key] + SECOND <= ttl
    ensures key in NewKeys([], Records(w.disk), Unix(at), ttl)
  {
    var rs := Records(w.disk);
    assert key in RecordKeys(rs);
    var r :| r in rs && r.key == key;
    assert Live(r, Unix(at), ttl);
  }

  /** The restored cache is full, and none of its entries is older than the oldest record of `key`. */
  ghost predicate FullOfNewer(q: seq<Entry>, key: Key, rs: seq<Record>, now: nat, nowUnix: u64, ttl: nat,
                              maxSize: nat) {
    |q| == maxSize && forall e :: e in q ==> OldestRestored(key, rs, now, nowUnix, ttl) <= e.ts
  }

  lemma SmallerSubset(a: set<Key>, b: set<Key>)
    requires a < b
    ensures |a| < |b|
  {
    var x :| x in b - a;
    assert b == (b - a) + a && |b| == |b - a| + |a|;
    assert |b - a| > 0;
  }

  lemma NewKeyLeftOut(rs: seq<Record>, now: nat, nowUnix: u64, key: Key, ttl: nat, maxSize: nat)
    requires key in NewKeys([], rs, nowUnix, ttl)
    ensures var q := Adopted([], rs, now, nowUnix, ttl, maxSize);
            key in Keys(q) || FullOfNewer(q, key, rs, now, nowUnix, ttl, maxSize)
  {
    var q := Adopted([], rs, now, nowUnix, ttl, maxSize);
    RestoreKeepsTheNewest([], rs, now, nowUnix, ttl, maxSize);
    if key !in Keys(q) {
      DistinctCount(q);
      SmallerSubset(Keys(q), NewKeys([], rs, nowUnix, ttl));
    }
  }

  /** A restart at `at` leaves `key` out because the restored cache is full of entries no older. */
  ghost predicate LeftOut(w: World, at: Moment, boot: int, key: Key, ttl: nat, maxSize: nat) {
    var q := Restarted(w, at, boot, ttl, maxSize).queue;
    key !in Keys(q) && FullOfNewer(q, key, Records(w.disk), Instant(at, boot), Unix(at), ttl, maxSize)
  }

  lemma RestoredNow(w: World, at: Moment, boot: int, key: Key, ttl: nat, maxSize: nat)
    requires DiskOk(w.disk, w.diskBirths, w.now) && w.now <= at && boot <= at
    requires key in w.diskBirths && at - w.diskBirths[key] + SECOND <= ttl
    ensures var w' := Restarted(w, at, boot, ttl, maxSize);
            || (key in w'.births && w'.births[key] == w.diskBirths[key])
            || LeftOut(w, at, boot, key, ttl, maxSize)
  {
    DiskKeyIsNew(w, at, key, ttl);
    NewKeyLeftOut(Records(w.disk), Instant(at, boot), Unix(at), key, ttl, maxSize);
  }

  // ------------------------------------------------------------ main results

  /**
   Safety over every run of packets, saves and restarts: a γ that the running life restored
   or accepted is refused until its true age comes within a second of the lifetime, unless
   `Capacity(maxSize)` different other ones have overtaken it in this life.
   */
  lemma RefusedAcrossRestarts(start: Moment, boot: int, run: seq<Event>, key: Key, at: Moment, ttl: nat, maxSize: nat)
    requires boot <= start && ValidRun(FirstLife(start, boot), run, ttl, maxSize)
    requires var w := WorldAt(FirstLife(start, boot), run, |run|, ttl, maxSize);
             w.now <= at && key in w.births && at - w.births[key] + SECOND <= ttl
    ensures var w := WorldAt(FirstLife(start, boot), run, |run|, ttl, maxSize);
            Refuses(w, key, at, ttl, maxSize) || Overtaken(w.life, key, Capacity(maxSize))
  {
    FirstLifeInv(start, boot, ttl, maxSize);
    RunKeepsInv(FirstLife(start, boot), run, |run|, ttl, maxSize);
    RefusedNow(WorldAt(FirstLife(start, boot), run, |run|, ttl, maxSize), key, at, ttl, maxSize);
  }

  /**
   What a restart brings back, in every run: each γ of the file whose true age is not within
   a second of the lifetime, with its original moment of acceptance, unless the restored
   cache is full of entries that are no older.
   */
  lemma RestoredUnlessFull(start: Moment, boot: int, run: seq<Event>, at: Moment, boot': int, key: Key, ttl: nat,
                           maxSize: nat)
    requires boot <= start && ValidRun(FirstLife(start, boot), run, ttl, maxSize)
    requires var w := WorldAt(FirstLife(start, boot), run, |run|, ttl, maxSize);
             && w.now <= at && boot' <= at && key in w.diskBirths && at - w.diskBirths[key] + SECOND <= ttl
    ensures var w := WorldAt(FirstLife(start, boot), run, |run|, ttl, maxSize);
            var w' := Restarted(w, at, boot', ttl, maxSize);
            || (key in w'.births && w'.births[key] == w.diskBirths[key])
            || LeftOut(w, at, boot', key, ttl, maxSize)
  {
    FirstLifeInv(start, boot, ttl, maxSize);
    RunKeepsInv(FirstLife(start, boot), run, |run|, ttl, maxSize);
    RestoredNow(WorldAt(FirstLife(start, boot), run, |run|, ttl, maxSize), at, boot', key, ttl, maxSize);
  }
}
