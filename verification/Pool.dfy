/**
 The connection pool as a protocol: any number of concurrent `send` calls, each a task that
 moves from one program point to the next. A step is what a task does between two points
 at which it may have to wait, so that every interleaving of the calls is a sequence of steps.

 Four kinds of lock are taken: the pool's, and a session, a stream and a time-stamp lock
 for each connection. Who holds what is determined by the program points (`Held`); a step
 gives back the locks that the new point no longer holds.
 */
module PoolModel {
  import opened Prelude
  import opened NoiseFraming

  /** Address and public key of a peer. */
  datatype PoolKey = PoolKey(addr: nat, pk: nat)

  datatype Lock = PoolLock | NoiseLock(conn: nat) | SendLock(conn: nat) | StampLock(conn: nat)

  datatype Oldest = Oldest(key: PoolKey, ts: nat)

  /** Program points of `send`; `isNew` tells the newly opened connection from a cached one. */
  datatype Pc =
    | WantLookup
    | Looking
    | WantNoise(c: nat, isNew: bool)
    | WantSend(c: nat, isNew: bool)
    | Sealing(c: nat, isNew: bool)
    | Writing(c: nat, isNew: bool, left: Bytes)
    | WantStamp(c: nat, isNew: bool, ts: nat)
    | Stamping(c: nat, isNew: bool, ts: nat)
    | WantRemove
    | Removing
    | Opening
    | WantInsert(c: nat)
    | Inserting(c: nat)
    | Scanning(c: nat, todo: set<PoolKey>, oldest: Option<Oldest>)
    | WantRead(c: nat, k: PoolKey, v: nat, todo: set<PoolKey>, oldest: Option<Oldest>)
    | Reading(c: nat, k: PoolKey, v: nat, todo: set<PoolKey>, oldest: Option<Oldest>)
    | Finished(ok: bool)

  datatype Task = Task(key: PoolKey, packet: Bytes, pc: Pc)

  /**
   A connection. `before` and `after` are the bytes on its stream before and after the first
   failed write, and `good` and `late` name the calls whose frames were written whole in each part.
   */
  datatype Conn = Conn(
    key: PoolKey,
    nonce: nat,
    before: Bytes,
    after: Bytes,
    broken: bool,
    good: seq<nat>,
    late: seq<nat>,
    lastUsed: nat)

  datatype State = State(
    tasks: seq<Task>,
    locks: map<Lock, nat>,
    conns: seq<Conn>,
    pool: map<PoolKey, nat>,
    clock: nat)

  /** The size limit, and the session cipher that each connection establishes when it is opened. */
  datatype Config = Config(maxSize: nat, cipher: nat -> Cipher)

  ghost predicate Proper(cfg: Config) {
    1 <= cfg.maxSize && forall c: nat :: Lawful(cfg.cipher(c))
  }

  /** What happens at a program point; the choices are those of the network and of the iteration order. */
  datatype Action =
    | Acquire
    | Proceed
    | Transmit(n: nat)
    | Break
    | Open
    | Refuse
    | Pick(k: PoolKey)

  datatype Step = Step(task: nat, action: Action, now: nat)

  // -------------------------------------------------------------------- locks

  function Held(pc: Pc): set<Lock> {
    match pc
    case Looking | Removing | Inserting(_) | Scanning(_, _, _) | WantRead(_, _, _, _, _) => {PoolLock}
    case Reading(_, _, v, _, _) => {PoolLock, StampLock(v)}
    case WantSend(c, _) => {NoiseLock(c)}
    case Sealing(c, _) => {NoiseLock(c), SendLock(c)}
    case Writing(c, _, _) => {NoiseLock(c), SendLock(c)}
    case WantStamp(c, _, _) => {NoiseLock(c), SendLock(c)}
    case Stamping(c, _, _) => {NoiseLock(c), SendLock(c), StampLock(c)}
    case _ => {}
  }

  /** The lock that a waiting task waits for. */
  function Wanted(pc: Pc): Option<Lock> {
    match pc
    case WantLookup | WantRemove | WantInsert(_) => Some(PoolLock)
    case WantNoise(c, _) => Some(NoiseLock(c))
    case WantSend(c, _) => Some(SendLock(c))
    case WantStamp(c, _, _) => Some(StampLock(c))
    case WantRead(_, _, v, _, _) => Some(StampLock(v))
    case _ => None
  }

  /** The point that a waiting task reaches with the lock. */
  function Granted(pc: Pc): Pc
    requires Wanted(pc).Some?
  {
    match pc
    case WantLookup => Looking
    case WantRemove => Removing
    case WantInsert(c) => Inserting(c)
    case WantNoise(c, isNew) => WantSend(c, isNew)
    case WantSend(c, isNew) => Sealing(c, isNew)
    case WantStamp(c, isNew, ts) => Stamping(c, isNew, ts)
    case WantRead(c, k, v, todo, oldest) => Reading(c, k, v, todo, oldest)
  }

  function Relock(locks: map<Lock, nat>, t: nat, had: set<Lock>, has: set<Lock>): map<Lock, nat> {
    map l | l in locks.Keys + has && l !in had - has :: if l in has then t else locks[l]
  }

  // -------------------------------------------------------------------- steps

  /** The connection that a call works on, if it has one. */
  function Target(pc: Pc): Option<nat> {
    match pc
    case WantNoise(c, _) => Some(c)
    case WantSend(c, _) => Some(c)
    case Sealing(c, _) => Some(c)
    case Writing(c, _, _) => Some(c)
    case WantStamp(c, _, _) => Some(c)
    case Stamping(c, _, _) => Some(c)
    case WantInsert(c) => Some(c)
    case Inserting(c) => Some(c)
    case Scanning(c, _, _) => Some(c)
    case WantRead(c, _, _, _, _) => Some(c)
    case Reading(c, _, _, _, _) => Some(c)
    case _ => None
  }

  predicate ScanOk(pool: map<PoolKey, nat>, todo: set<PoolKey>, oldest: Option<Oldest>) {
    todo <= pool.Keys && (oldest.Some? ==> oldest.value.key in pool)
  }

  predicate NextOk(pool: map<PoolKey, nat>, todo: set<PoolKey>, k: PoolKey, v: nat) {
    k in pool && pool[k] == v && k !in todo
  }

  /** A task only refers to connections that exist and were opened to its own peer. */
  predicate PcOk(conns: seq<Conn>, pool: map<PoolKey, nat>, key: PoolKey, pc: Pc) {
    && (Target(pc).Some? ==> Target(pc).value < |conns| && conns[Target(pc).value].key == key)
    && (pc.Writing? ==> pc.left != [])
    && (pc.Scanning? ==> ScanOk(pool, pc.todo, pc.oldest))
    && (pc.WantRead? ==> ScanOk(pool, pc.todo, pc.oldest) && NextOk(pool, pc.todo, pc.k, pc.v))
    && (pc.Reading? ==> ScanOk(pool, pc.todo, pc.oldest) && NextOk(pool, pc.todo, pc.k, pc.v))
  }

  /** Every pool entry is a connection that was opened to exactly its key. */
  ghost predicate PoolOk(conns: seq<Conn>, pool: map<PoolKey, nat>) {
    forall k :: k in pool ==> pool[k] < |conns| && conns[pool[k]].key == k
  }

  ghost predicate Typed(s: State) {
    && PoolOk(s.conns, s.pool)
    && forall t :: 0 <= t < |s.tasks| ==> PcOk(s.conns, s.pool, s.tasks[t].key, s.tasks[t].pc)
  }

  predicate Enabled(s: State, step: Step) {
    && step.task < |s.tasks| && s.clock <= step.now
    && var pc := s.tasks[step.task].pc;
       match step.action
       case Acquire => Wanted(pc).Some? && Wanted(pc).value !in s.locks
       case Proceed =>
         || pc.Looking? || pc.Sealing? || pc.Stamping? || pc.Removing? || pc.Inserting? || pc.Reading?
         || (pc.Scanning? && pc.todo == {})
       case Transmit(n) => pc.Writing? && 1 <= n <= |pc.left|
       case Break => pc.Sealing? || pc.Writing?
       case Open => pc.Opening?
       case Refuse => pc.Opening?
       case Pick(k) => pc.Scanning? && k in pc.todo
  }

  datatype Effect = Effect(pc: Pc, conns: seq<Conn>, pool: map<PoolKey, nat>)

  /** After a failed write: a cached connection is dropped and replaced, a new one is given up. */
  function AfterFailure(isNew: bool): Pc {
    if isNew then Finished(false) else WantRemove
  }

  /** The loop body of the eviction scan: a strictly older stamp replaces the best so far. */
  function Older(oldest: Option<Oldest>, k: PoolKey, ts: nat): Option<Oldest> {
    if oldest.None? || ts < oldest.value.ts then Some(Oldest(k, ts)) else oldest
  }

  function Append(conn: Conn, bytes: Bytes): Conn {
    if conn.broken then conn.(after := conn.after + bytes) else conn.(before := conn.before + bytes)
  }

  function Log(conn: Conn, t: nat): Conn {
    if conn.broken then conn.(late := conn.late + [t]) else conn.(good := conn.good + [t])
  }

  /** Bytes go out; with the last one the frame is whole and the clock is read for the time stamp. */
  function Sent(s: State, t: nat, n: nat, now: nat): Effect
    requires t < |s.tasks| && s.tasks[t].pc.Writing? && 1 <= n <= |s.tasks[t].pc.left|
    requires s.tasks[t].pc.c < |s.conns|
  {
    var Writing(c, isNew, left) := s.tasks[t].pc;
    var conn := Append(s.conns[c], left[..n]);
    if n < |left| then Effect(Writing(c, isNew, left[n..]), s.conns[c := conn], s.pool)
    else Effect(WantStamp(c, isNew, now), s.conns[c := Log(conn, t)], s.pool)
  }

  function Advance(s: State, t: nat, cfg: Config): Effect
    requires t < |s.tasks| && PcOk(s.conns, s.pool, s.tasks[t].key, s.tasks[t].pc)
    requires Enabled(s, Step(t, Proceed, s.clock))
    requires s.tasks[t].pc.Reading? ==> s.tasks[t].pc.v < |s.conns|
  {
    var task := s.tasks[t];
    match task.pc
    case Looking =>
      Effect(if task.key in s.pool then WantNoise(s.pool[task.key], false) else Opening, s.conns, s.pool)
    case Sealing(c, isNew) =>
      if |task.packet| != PACKET_SIZE then Effect(AfterFailure(isNew), s.conns, s.pool)
      else
        var conn := s.conns[c];
        Effect(Writing(c, isNew, cfg.cipher(c).seal(conn.nonce, task.packet)),
               s.conns[c := conn.(nonce := conn.nonce + 1)], s.pool)
    case Stamping(c, isNew, ts) =>
      Effect(if isNew then WantInsert(c) else Finished(true), s.conns[c := s.conns[c].(lastUsed := ts)], s.pool)
    case Removing => Effect(Opening, s.conns, s.pool - {task.key})
    case Inserting(c) =>
      if |s.pool| >= cfg.maxSize then Effect(Scanning(c, s.pool.Keys, None), s.conns, s.pool)
      else Effect(Finished(true), s.conns, s.pool[task.key := c])
    case Reading(c, k, v, todo, oldest) =>
      Effect(Scanning(c, todo, Older(oldest, k, s.conns[v].lastUsed)), s.conns, s.pool)
    case Scanning(c, _, oldest) =>
      var kept := if oldest.Some? then s.pool - {oldest.value.key} else s.pool;
      Effect(Finished(true), s.conns, kept[task.key := c])
  }

  ghost function EffectOf(s: State, step: Step, cfg: Config): Effect
    requires Typed(s) && Enabled(s, step)
  {
    var task := s.tasks[step.task];
    match step.action
    case Acquire => Effect(Granted(task.pc), s.conns, s.pool)
    case Proceed => Advance(s, step.task, cfg)
    case Transmit(n) => Sent(s, step.task, n, step.now)
    case Break =>
      Effect(AfterFailure(task.pc.isNew),
             if task.pc.Writing? then s.conns[task.pc.c := s.conns[task.pc.c].(broken := true)] else s.conns,
             s.pool)
    case Open =>
      Effect(WantNoise(|s.conns|, true), s.conns + [Conn(task.key, 0, [], [], false, [], [], step.now)], s.pool)
    case Refuse => Effect(Finished(false), s.conns, s.pool)
    case Pick(k) => Effect(WantRead(task.pc.c, k, s.pool[k], task.pc.todo - {k}, task.pc.oldest), s.conns, s.pool)
  }

  ghost function Next(s: State, step: Step, cfg: Config): State
    requires Typed(s) && Enabled(s, step)
  {
    var t, e := step.task, EffectOf(s, step, cfg);
    State(s.tasks[t := s.tasks[t].(pc := e.pc)],
          Relock(s.locks, t, Held(s.tasks[t].pc), Held(e.pc)),
          e.conns, e.pool, step.now)
  }

  /** An empty pool and calls that have not begun. */
  ghost predicate Initial(s: State) {
    && s.locks == map[] && s.conns == [] && s.pool == map[]
    && forall t :: 0 <= t < |s.tasks| ==> s.tasks[t].pc == WantLookup
  }
}
