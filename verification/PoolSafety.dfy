/**
 Safety of the connection pool in every interleaving: mutual exclusion, the size bound, what
 the pool maps a key to, and which entry an eviction removes.
 */
module PoolSafety {
  import opened Prelude
  import opened NoiseFraming
  import opened PoolModel

  // ------------------------------------------------------------------- locks

  /** The lock table says exactly who holds what; in particular a lock has one holder. */
  ghost predicate LockTable(tasks: seq<Task>, locks: map<Lock, nat>) {
    && (forall l :: l in locks ==> locks[l] < |tasks| && l in Held(tasks[locks[l]].pc))
    && (forall t, l :: 0 <= t < |tasks| && l in Held(tasks[t].pc) ==> l in locks && locks[l] == t)
  }

  ghost predicate LockInv(s: State) {
    LockTable(s.tasks, s.locks)
  }

  lemma EndOfSection(s: State, t: nat, cfg: Config)
    requires Typed(s) && t < |s.tasks| && Enabled(s, Step(t, Proceed, s.clock))
    requires var pc := s.tasks[t].pc; pc.Looking? || pc.Removing? || pc.Stamping? || pc.Scanning?
    ensures Held(Advance(s, t, cfg).pc) == {}
  {
  }

  lemma ProceedTakesNoLock(s: State, t: nat, cfg: Config, l: Lock)
    requires Typed(s) && t < |s.tasks| && Enabled(s, Step(t, Proceed, s.clock))
    ensures l in Held(Advance(s, t, cfg).pc) ==> l in Held(s.tasks[t].pc)
  {
    var pc := s.tasks[t].pc;
    if pc.Looking? || pc.Removing? || pc.Stamping? || pc.Scanning? {
      EndOfSection(s, t, cfg);
    }
  }

  /** A step only takes a lock that is free. */
  lemma NewLocksAreFree(s: State, step: Step, cfg: Config, l: Lock)
    requires Typed(s) && Enabled(s, step)
    requires l in Held(EffectOf(s, step, cfg).pc) && l !in Held(s.tasks[step.task].pc)
    ensures l !in s.locks
  {
    if step.action.Proceed? {
      ProceedTakesNoLock(s, step.task, cfg, l);
    }
  }

  /** Every lock in the new table is held by its holder. */
  lemma RelockedIsHeld(tasks: seq<Task>, locks: map<Lock, nat>, t: nat, pc: Pc, l: Lock)
    requires LockTable(tasks, locks) && t < |tasks|
    requires l in Relock(locks, t, Held(tasks[t].pc), Held(pc))
    ensures var holder := Relock(locks, t, Held(tasks[t].pc), Held(pc))[l];
            holder < |tasks| && l in Held(tasks[t := tasks[t].(pc := pc)][holder].pc)
  {
    var had, has := Held(tasks[t].pc), Held(pc);
    if l !in has {
      assert l in locks && l !in had;
      assert locks[l] != t;
    }
  }

  /** Whoever holds a lock is in the new table as its holder. */
  lemma HolderIsRelocked(tasks: seq<Task>, locks: map<Lock, nat>, t: nat, pc: Pc, u: nat, l: Lock)
    requires LockTable(tasks, locks) && t < |tasks| && u < |tasks|
    requires l in Held(pc) && l !in Held(tasks[t].pc) ==> l !in locks
    requires l in Held(tasks[t := tasks[t].(pc := pc)][u].pc)
    ensures var locks' := Relock(locks, t, Held(tasks[t].pc), Held(pc)); l in locks' && locks'[l] == u
  {
    var had, has := Held(tasks[t].pc), Held(pc);
    if u == t {
      assert l in has;
    } else {
      assert l in locks && locks[l] == u;
      assert l !in had;
    }
  }

  lemma RelockKeepsTable(tasks: seq<Task>, locks: map<Lock, nat>, t: nat, pc: Pc)
    requires LockTable(tasks, locks) && t < |tasks|
    requires forall l :: l in Held(pc) && l !in Held(tasks[t].pc) ==> l !in locks
    ensures LockTable(tasks[t := tasks[t].(pc := pc)], Relock(locks, t, Held(tasks[t].pc), Held(pc)))
  {
    var tasks', locks' := tasks[t := tasks[t].(pc := pc)], Relock(locks, t, Held(tasks[t].pc), Held(pc));
    forall l | l in locks' ensures locks'[l] < |tasks'| && l in Held(tasks'[locks'[l]].pc) {
      RelockedIsHeld(tasks, locks, t, pc, l);
    }
    forall u, l | 0 <= u < |tasks'| && l in Held(tasks'[u].pc) ensures l in locks' && locks'[l] == u {
      HolderIsRelocked(tasks, locks, t, pc, u, l);
    }
  }

  lemma LocksKept(s: State, step: Step, cfg: Config)
    requires Typed(s) && Enabled(s, step) && LockInv(s)
    ensures LockInv(Next(s, step, cfg))
  {
    var pc := EffectOf(s, step, cfg).pc;
    forall l | l in Held(pc) && l !in Held(s.tasks[step.task].pc) ensures l !in s.locks {
      NewLocksAreFree(s, step, cfg, l);
    }
    RelockKeepsTable(s.tasks, s.locks, step.task, pc);
  }

  // ------------------------------------------------------------------- types

  predicate InScan(pc: Pc) {
    pc.Scanning? || pc.WantRead? || pc.Reading?
  }

  ghost predicate KeysKept(was: seq<Conn>, now: seq<Conn>) {
    |was| <= |now| && forall c :: 0 <= c < |was| ==> now[c].key == was[c].key
  }

  lemma ConnsKeepKeys(s: State, step: Step, cfg: Config)
    requires Typed(s) && Enabled(s, step)
    ensures KeysKept(s.conns, EffectOf(s, step, cfg).conns)
  {
  }

  lemma PoolChangesUnderLock(s: State, step: Step, cfg: Config)
    requires Typed(s) && Enabled(s, step)
    ensures EffectOf(s, step, cfg).pool == s.pool || PoolLock in Held(s.tasks[step.task].pc)
  {
  }

  /** Only one task is at a point where it holds a given lock. */
  lemma Alone(s: State, t: nat, u: nat, l: Lock)
    requires LockInv(s) && t < |s.tasks| && u < |s.tasks|
    requires l in Held(s.tasks[t].pc) && l in Held(s.tasks[u].pc)
    ensures t == u
  {
    assert s.locks[l] == t && s.locks[l] == u;
  }

  lemma PoolStaysOk(s: State, step: Step, cfg: Config)
    requires Typed(s) && Enabled(s, step)
    ensures var e := EffectOf(s, step, cfg); PoolOk(e.conns, e.pool)
  {
    ConnsKeepKeys(s, step, cfg);
    var task, e := s.tasks[step.task], EffectOf(s, step, cfg);
    assert PcOk(s.conns, s.pool, task.key, task.pc);
    forall k | k in e.pool ensures e.pool[k] < |e.conns| && e.conns[e.pool[k]].key == k {
      if !(k in s.pool && e.pool[k] == s.pool[k]) {
        assert k == task.key;
      }
    }
  }

  lemma SealedIsWhole(cfg: Config, c: nat, n: nat, packet: Bytes)
    requires Proper(cfg)
    ensures |cfg.cipher(c).seal(n, packet)| == |packet| + NOISE_TAG_LEN
  {
    assert Lawful(cfg.cipher(c));
  }

  lemma SealerStaysOk(s: State, t: nat, cfg: Config)
    requires Typed(s) && Proper(cfg) && t < |s.tasks| && s.tasks[t].pc.Sealing?
    ensures var e := Advance(s, t, cfg); PcOk(e.conns, e.pool, s.tasks[t].key, e.pc)
  {
    var task := s.tasks[t];
    assert PcOk(s.conns, s.pool, task.key, task.pc);
    SealedIsWhole(cfg, task.pc.c, s.conns[task.pc.c].nonce, task.packet);
  }

  lemma ScannerStaysOk(s: State, t: nat, cfg: Config)
    requires Typed(s) && t < |s.tasks| && Enabled(s, Step(t, Proceed, s.clock))
    requires s.tasks[t].pc.Inserting? || InScan(s.tasks[t].pc)
    ensures var e := Advance(s, t, cfg); PcOk(e.conns, e.pool, s.tasks[t].key, e.pc)
  {
    assert PcOk(s.conns, s.pool, s.tasks[t].key, s.tasks[t].pc);
  }

  lemma ProceederStaysOk(s: State, t: nat, cfg: Config)
    requires Typed(s) && Proper(cfg) && t < |s.tasks| && Enabled(s, Step(t, Proceed, s.clock))
    ensures var e := Advance(s, t, cfg); PcOk(e.conns, e.pool, s.tasks[t].key, e.pc)
  {
    var pc := s.tasks[t].pc;
    if pc.Sealing? {
      SealerStaysOk(s, t, cfg);
    } else if pc.Inserting? || InScan(pc) {
      ScannerStaysOk(s, t, cfg);
    } else {
      assert PcOk(s.conns, s.pool, s.tasks[t].key, pc);
    }
  }

  lemma StepperStaysOk(s: State, step: Step, cfg: Config)
    requires Typed(s) && Enabled(s, step) && Proper(cfg)
    ensures var e := EffectOf(s, step, cfg); PcOk(e.conns, e.pool, s.tasks[step.task].key, e.pc)
  {
    if step.action.Proceed? {
      ProceederStaysOk(s, step.task, cfg);
    } else {
      assert PcOk(s.conns, s.pool, s.tasks[step.task].key, s.tasks[step.task].pc);
    }
  }

  lemma OthersStayOk(s: State, step: Step, cfg: Config, u: nat)
    requires Typed(s) && Enabled(s, step) && LockInv(s) && u < |s.tasks| && u != step.task
    ensures var e := EffectOf(s, step, cfg); PcOk(e.conns, e.pool, s.tasks[u].key, s.tasks[u].pc)
  {
    assert PcOk(s.conns, s.pool, s.tasks[u].key, s.tasks[u].pc);
    ConnsKeepKeys(s, step, cfg);
    PoolChangesUnderLock(s, step, cfg);
    if PoolLock in Held(s.tasks[u].pc) && PoolLock in Held(s.tasks[step.task].pc) {
      Alone(s, u, step.task, PoolLock);
    }
  }

  lemma TypesKept(s: State, step: Step, cfg: Config)
    requires Typed(s) && Enabled(s, step) && LockInv(s) && Proper(cfg)
    ensures Typed(Next(s, step, cfg))
  {
    var s' := Next(s, step, cfg);
    PoolStaysOk(s, step, cfg);
    forall u | 0 <= u < |s'.tasks| ensures PcOk(s'.conns, s'.pool, s'.tasks[u].key, s'.tasks[u].pc) {
      if u == step.task {
        StepperStaysOk(s, step, cfg);
      } else {
        OthersStayOk(s, step, cfg, u);
      }
    }
  }

  // ------------------------------------------------------------- time stamps

  /** No stamp is in the future, and a stamp about to be stored is no older than the one it replaces. */
  ghost predicate StampOk(conns: seq<Conn>, clock: nat, pc: Pc) {
    && (pc.WantStamp? && pc.c < |conns| ==> conns[pc.c].lastUsed <= pc.ts <= clock)
    && (pc.Stamping? && pc.c < |conns| ==> conns[pc.c].lastUsed <= pc.ts <= clock)
  }

  ghost predicate StampInv(s: State) {
    && (forall c :: 0 <= c < |s.conns| ==> s.conns[c].lastUsed <= s.clock)
    && (forall t :: 0 <= t < |s.tasks| ==> StampOk(s.conns, s.clock, s.tasks[t].pc))
  }

  /** A time stamp only moves forward, and only under the session lock of its connection. */
  lemma StampsMove(s: State, step: Step, cfg: Config, c: nat)
    requires Typed(s) && Enabled(s, step) && StampInv(s) && c < |s.conns|
    ensures var now := EffectOf(s, step, cfg).conns[c].lastUsed;
            && s.conns[c].lastUsed <= now <= step.now
            && (now == s.conns[c].lastUsed || NoiseLock(c) in Held(s.tasks[step.task].pc))
  {
    assert StampOk(s.conns, s.clock, s.tasks[step.task].pc);
    assert PcOk(s.conns, s.pool, s.tasks[step.task].key, s.tasks[step.task].pc);
  }

  lemma TransmitStamp(s: State, t: nat, n: nat, now: nat)
    requires Typed(s) && StampInv(s) && s.clock <= now
    requires t < |s.tasks| && s.tasks[t].pc.Writing? && 1 <= n <= |s.tasks[t].pc.left|
    ensures PcOk(s.conns, s.pool, s.tasks[t].key, s.tasks[t].pc)
    ensures StampOk(Sent(s, t, n, now).conns, now, Sent(s, t, n, now).pc)
  {
  }

  lemma ProceedStamps(s: State, t: nat, cfg: Config)
    requires Typed(s) && t < |s.tasks| && Enabled(s, Step(t, Proceed, s.clock))
    ensures !Advance(s, t, cfg).pc.WantStamp? && !Advance(s, t, cfg).pc.Stamping?
  {
  }

  lemma OwnStamp(s: State, step: Step, cfg: Config)
    requires Typed(s) && Enabled(s, step) && StampInv(s)
    ensures StampOk(EffectOf(s, step, cfg).conns, step.now, EffectOf(s, step, cfg).pc)
  {
    var task := s.tasks[step.task];
    assert PcOk(s.conns, s.pool, task.key, task.pc) && StampOk(s.conns, s.clock, task.pc);
    match step.action
    case Acquire =>
    case Transmit(n) => TransmitStamp(s, step.task, n, step.now);
    case Proceed => ProceedStamps(s, step.task, cfg);
    case Break =>
    case Open =>
    case Refuse =>
    case Pick(_) =>
  }

  lemma OtherStamp(s: State, step: Step, cfg: Config, u: nat)
    requires Typed(s) && Enabled(s, step) && LockInv(s) && StampInv(s) && u < |s.tasks| && u != step.task
    ensures StampOk(EffectOf(s, step, cfg).conns, step.now, s.tasks[u].pc)
  {
    var pc := s.tasks[u].pc;
    assert StampOk(s.conns, s.clock, pc) && PcOk(s.conns, s.pool, s.tasks[u].key, pc);
    if pc.WantStamp? || pc.Stamping? {
      StampsMove(s, step, cfg, pc.c);
      if NoiseLock(pc.c) in Held(s.tasks[step.task].pc) {
        Alone(s, u, step.task, NoiseLock(pc.c));
      }
    }
  }

  lemma StampsKept(s: State, step: Step, cfg: Config)
    requires Typed(s) && Enabled(s, step) && LockInv(s) && StampInv(s)
    ensures StampInv(Next(s, step, cfg))
  {
    var t, s' := step.task, Next(s, step, cfg);
    forall c | 0 <= c < |s'.conns| ensures s'.conns[c].lastUsed <= s'.clock {
      if c < |s.conns| {
        StampsMove(s, step, cfg, c);
      }
    }
    forall u | 0 <= u < |s'.tasks| ensures StampOk(s'.conns, s'.clock, s'.tasks[u].pc) {
      if u == t {
        OwnStamp(s, step, cfg);
      } else {
        OtherStamp(s, step, cfg, u);
      }
    }
  }

  // ------------------------------------------------------------ eviction scan

  /** The entries that a scan has read so far. */
  ghost function Visited(pool: map<PoolKey, nat>, pc: Pc): set<PoolKey>
    requires InScan(pc)
  {
    if pc.Scanning? then pool.Keys - pc.todo else pool.Keys - pc.todo - {pc.k}
  }

  /** The best entry so far is one that was read, and no entry that was read is idle for longer. */
  ghost predicate BestSoFar(conns: seq<Conn>, pool: map<PoolKey, nat>, seen: set<PoolKey>, oldest: Option<Oldest>) {
    if oldest.None? then seen == {}
    else
      && oldest.value.key in seen
      && forall k :: k in seen && k in pool && pool[k] < |conns| ==> oldest.value.ts <= conns[pool[k]].lastUsed
  }

  ghost predicate ScanInv(conns: seq<Conn>, pool: map<PoolKey, nat>, pc: Pc) {
    InScan(pc) ==> BestSoFar(conns, pool, Visited(pool, pc), pc.oldest)
  }

  ghost predicate ScansInv(s: State) {
    forall t :: 0 <= t < |s.tasks| ==> ScanInv(s.conns, s.pool, s.tasks[t].pc)
  }

  /** Stamps that only move forward keep the best entry of a scan the best. */
  lemma ScanOutlives(a: seq<Conn>, b: seq<Conn>, pool: map<PoolKey, nat>, pc: Pc)
    requires ScanInv(a, pool, pc) && PoolOk(a, pool) && |a| <= |b|
    requires forall k :: k in pool ==> a[pool[k]].lastUsed <= b[pool[k]].lastUsed
    ensures ScanInv(b, pool, pc)
  {
  }

  lemma OtherScan(s: State, step: Step, cfg: Config, u: nat)
    requires Typed(s) && Enabled(s, step) && LockInv(s) && StampInv(s) && ScansInv(s)
    requires u < |s.tasks| && u != step.task
    ensures var e := EffectOf(s, step, cfg); ScanInv(e.conns, e.pool, s.tasks[u].pc)
  {
    var pc, e := s.tasks[u].pc, EffectOf(s, step, cfg);
    assert ScanInv(s.conns, s.pool, pc);
    if InScan(pc) {
      PoolChangesUnderLock(s, step, cfg);
      if PoolLock in Held(s.tasks[step.task].pc) {
        Alone(s, u, step.task, PoolLock);
      }
      ConnsKeepKeys(s, step, cfg);
      forall k | k in s.pool ensures s.conns[s.pool[k]].lastUsed <= e.conns[s.pool[k]].lastUsed {
        StampsMove(s, step, cfg, s.pool[k]);
      }
      ScanOutlives(s.conns, e.conns, s.pool, pc);
    }
  }

  lemma ScanBegins(s: State, t: nat, cfg: Config)
    requires Typed(s) && t < |s.tasks| && s.tasks[t].pc.Inserting?
    ensures var e := Advance(s, t, cfg); ScanInv(e.conns, e.pool, e.pc)
  {
    assert s.pool.Keys - s.pool.Keys == {};
  }

  /** One more entry read: the loop body keeps the best one. */
  lemma ReadExtendsScan(conns: seq<Conn>, pool: map<PoolKey, nat>, pc: Pc)
    requires pc.Reading? && ScanInv(conns, pool, pc) && PoolOk(conns, pool) && NextOk(pool, pc.todo, pc.k, pc.v)
    ensures ScanInv(conns, pool, Scanning(pc.c, pc.todo, Older(pc.oldest, pc.k, conns[pc.v].lastUsed)))
  {
    assert pool.Keys - pc.todo == pool.Keys - pc.todo - {pc.k} + {pc.k};
  }

  lemma ScanReads(s: State, t: nat, cfg: Config)
    requires Typed(s) && ScansInv(s) && t < |s.tasks| && s.tasks[t].pc.Reading?
    ensures PcOk(s.conns, s.pool, s.tasks[t].key, s.tasks[t].pc)
    ensures var e := Advance(s, t, cfg); ScanInv(e.conns, e.pool, e.pc)
  {
    assert ScanInv(s.conns, s.pool, s.tasks[t].pc);
    ReadExtendsScan(s.conns, s.pool, s.tasks[t].pc);
  }

  lemma NoScan(s: State, t: nat, cfg: Config)
    requires Typed(s) && t < |s.tasks| && Enabled(s, Step(t, Proceed, s.clock))
    requires !s.tasks[t].pc.Reading? && !s.tasks[t].pc.Inserting?
    ensures !InScan(Advance(s, t, cfg).pc)
  {
  }

  lemma ScanProceeds(s: State, t: nat, cfg: Config)
    requires Typed(s) && ScansInv(s) && t < |s.tasks| && Enabled(s, Step(t, Proceed, s.clock))
    ensures var e := Advance(s, t, cfg); ScanInv(e.conns, e.pool, e.pc)
  {
    if s.tasks[t].pc.Reading? {
      ScanReads(s, t, cfg);
    } else if s.tasks[t].pc.Inserting? {
      ScanBegins(s, t, cfg);
    } else {
      NoScan(s, t, cfg);
    }
  }

  lemma OwnScan(s: State, step: Step, cfg: Config)
    requires Typed(s) && Enabled(s, step) && ScansInv(s)
    ensures var e := EffectOf(s, step, cfg); ScanInv(e.conns, e.pool, e.pc)
  {
    var task := s.tasks[step.task];
    var pc := task.pc;
    assert ScanInv(s.conns, s.pool, pc) && PcOk(s.conns, s.pool, task.key, pc);
    match step.action
    case Acquire =>
    case Proceed => ScanProceeds(s, step.task, cfg);
    case Pick(k) => assert s.pool.Keys - pc.todo == s.pool.Keys - (pc.todo - {k}) - {k};
    case Transmit(n) =>
    case Break =>
    case Open =>
    case Refuse =>
  }

  lemma ScansKept(s: State, step: Step, cfg: Config)
    requires Typed(s) && Enabled(s, step) && LockInv(s) && StampInv(s) && ScansInv(s)
    ensures ScansInv(Next(s, step, cfg))
  {
    var s' := Next(s, step, cfg);
    forall u | 0 <= u < |s'.tasks| ensures ScanInv(s'.conns, s'.pool, s'.tasks[u].pc) {
      if u == step.task {
        OwnScan(s, step, cfg);
      } else {
        OtherScan(s, step, cfg, u);
      }
    }
  }

  // -------------------------------------------------------------- size bound

  lemma InsertSize(pool: map<PoolKey, nat>, key: PoolKey, c: nat)
    ensures |pool[key := c]| <= |pool| + 1
  {
    assert |pool| == |pool.Keys| && |pool[key := c]| == |pool[key := c].Keys|;
    assert pool[key := c].Keys == pool.Keys + {key};
  }

  lemma RemoveSize(pool: map<PoolKey, nat>, key: PoolKey)
    ensures |pool - {key}| == if key in pool then |pool| - 1 else |pool|
  {
    assert |pool| == |pool.Keys| && |pool - {key}| == |(pool - {key}).Keys|;
    assert (pool - {key}).Keys == pool.Keys - {key};
  }

  lemma EmptySize(pool: map<PoolKey, nat>)
    requires pool.Keys == {}
    ensures |pool| == 0
  {
    assert |pool| == |pool.Keys|;
  }

  lemma EvictionSize(s: State, t: nat, cfg: Config)
    requires Typed(s) && ScansInv(s) && Proper(cfg) && |s.pool| <= cfg.maxSize
    requires t < |s.tasks| && s.tasks[t].pc.Scanning? && s.tasks[t].pc.todo == {}
    ensures |Advance(s, t, cfg).pool| <= cfg.maxSize
  {
    var task := s.tasks[t];
    var Scanning(c, todo, oldest) := task.pc;
    assert ScanInv(s.conns, s.pool, task.pc) && PcOk(s.conns, s.pool, task.key, task.pc);
    assert s.pool.Keys - todo == s.pool.Keys;
    if oldest.Some? {
      RemoveSize(s.pool, oldest.value.key);
      InsertSize(s.pool - {oldest.value.key}, task.key, c);
    } else {
      EmptySize(s.pool);
      InsertSize(s.pool, task.key, c);
    }
  }

  lemma ProceedSize(s: State, t: nat, cfg: Config)
    requires Typed(s) && ScansInv(s) && Proper(cfg) && |s.pool| <= cfg.maxSize
    requires t < |s.tasks| && Enabled(s, Step(t, Proceed, s.clock))
    ensures |Advance(s, t, cfg).pool| <= cfg.maxSize
  {
    var task := s.tasks[t];
    assert PcOk(s.conns, s.pool, task.key, task.pc);
    match task.pc
    case Removing => RemoveSize(s.pool, task.key);
    case Inserting(c) => InsertSize(s.pool, task.key, c);
    case Scanning(_, _, _) => EvictionSize(s, t, cfg);
    case Looking =>
    case Sealing(_, _) =>
    case Stamping(_, _, _) =>
    case Reading(_, _, _, _, _) =>
  }

  lemma SizeKept(s: State, step: Step, cfg: Config)
    requires Typed(s) && Enabled(s, step) && ScansInv(s) && Proper(cfg) && |s.pool| <= cfg.maxSize
    ensures |EffectOf(s, step, cfg).pool| <= cfg.maxSize
  {
    if step.action.Proceed? {
      ProceedSize(s, step.task, cfg);
    }
  }

  /** When a scan is over, the entry it removes was read as idle for at least as long as every entry is now. */
  lemma EvictsTheLongestIdle(s: State, t: nat, k: PoolKey)
    requires Typed(s) && ScansInv(s) && t < |s.tasks| && s.tasks[t].pc.Scanning? && s.tasks[t].pc.todo == {}
    requires k in s.pool
    ensures var oldest := s.tasks[t].pc.oldest;
            oldest.Some? && oldest.value.key in s.pool && oldest.value.ts <= s.conns[s.pool[k]].lastUsed
  {
    var pc := s.tasks[t].pc;
    assert ScanInv(s.conns, s.pool, pc) && PoolOk(s.conns, s.pool);
    assert k in s.pool.Keys - pc.todo;
  }

  // -------------------------------------------------------------------- runs

  /** What every interleaving keeps. */
  ghost predicate Safe(s: State, cfg: Config) {
    Typed(s) && LockInv(s) && StampInv(s) && ScansInv(s) && |s.pool| <= cfg.maxSize
  }

  lemma InitialIsSafe(s: State, cfg: Config)
    requires Initial(s) && Proper(cfg)
    ensures Safe(s, cfg)
  {
  }

  lemma StepIsSafe(s: State, step: Step, cfg: Config)
    requires Safe(s, cfg) && Enabled(s, step) && Proper(cfg)
    ensures Safe(Next(s, step, cfg), cfg)
  {
    TypesKept(s, step, cfg);
    LocksKept(s, step, cfg);
    StampsKept(s, step, cfg);
    ScansKept(s, step, cfg);
    SizeKept(s, step, cfg);
  }

  ghost predicate ValidRun(s: State, run: seq<Step>, cfg: Config)
    requires Safe(s, cfg) && Proper(cfg)
    decreases |run|
  {
    run != [] ==>
      && Enabled(s, run[0])
      && (StepIsSafe(s, run[0], cfg); ValidRun(Next(s, run[0], cfg), run[1..], cfg))
  }

  ghost function After(s: State, run: seq<Step>, cfg: Config): (r: State)
    requires Safe(s, cfg) && Proper(cfg) && ValidRun(s, run, cfg)
    ensures Safe(r, cfg)
    decreases |run|
  {
    if run == [] then s
    else
      StepIsSafe(s, run[0], cfg);
      After(Next(s, run[0], cfg), run[1..], cfg)
  }

  /** `run` is an interleaving of the calls of `s`, from an empty pool. */
  ghost predicate Interleaves(s: State, run: seq<Step>, cfg: Config) {
    Initial(s) && Proper(cfg) && (InitialIsSafe(s, cfg); ValidRun(s, run, cfg))
  }

  /** The state that an interleaving leads to. */
  ghost function Reached(s: State, run: seq<Step>, cfg: Config): (r: State)
    requires Interleaves(s, run, cfg)
    ensures Safe(r, cfg)
  {
    InitialIsSafe(s, cfg);
    After(s, run, cfg)
  }

  ghost predicate Reachable(cfg: Config, r: State) {
    Proper(cfg) && exists s: State, run: seq<Step> :: Interleaves(s, run, cfg) && Reached(s, run, cfg) == r
  }

  /**
   Pool safety: in every state that any number of interleaved calls can reach, the pool
   holds at most `maxSize` entries, and each is a connection opened to exactly its key.
   */
  lemma PoolIsSafe(cfg: Config, r: State)
    requires Reachable(cfg, r)
    ensures Safe(r, cfg) && |r.pool| <= cfg.maxSize
    ensures forall k :: k in r.pool ==> r.pool[k] < |r.conns| && r.conns[r.pool[k]].key == k
  {
    assert Safe(r, cfg);
    assert PoolOk(r.conns, r.pool);
  }
}
