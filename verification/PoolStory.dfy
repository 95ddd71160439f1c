/**
 What each call does, told by what an observer sees of it: whether it found its peer in the
 pool, on which connections its writes failed, which connection it opened, when its last byte
 went out, and the time stamps that its scan read. In every interleaving these notes explain
 the connection that the call uses, its result, and every change of the pool.
 */
module PoolStory {
  import opened Prelude
  import opened NoiseFraming
  import opened PoolModel
  import opened PoolSafety

  /** The connection that took a call's last byte, and the moment. */
  datatype Last = Last(c: nat, at: nat)

  datatype Note = Note(
    looked: bool,
    found: Option<nat>,
    failedOn: set<nat>,
    own: Option<nat>,
    refused: bool,
    sent: Option<Last>,
    stamps: map<PoolKey, nat>)

  const BLANK: Note := Note(false, None, {}, None, false, None, map[])

  function Lookup(pool: map<PoolKey, nat>, key: PoolKey): Option<nat> {
    if key in pool then Some(pool[key]) else None
  }

  function FailedOn(n: Note, pc: Pc): Note {
    if Target(pc).Some? then n.(failedOn := n.failedOn + {Target(pc).value}) else n
  }

  /** What the observer adds to the notes on the stepping call; it looks at the state before the step only. */
  function Observe(n: Note, s: State, step: Step): Note
    requires step.task < |s.tasks|
  {
    var task := s.tasks[step.task];
    match step.action
    case Acquire => if task.pc.WantLookup? then n.(looked := true, found := Lookup(s.pool, task.key)) else n
    case Transmit(k) =>
      if task.pc.Writing? && k == |task.pc.left| then n.(sent := Some(Last(task.pc.c, step.now))) else n
    case Break => FailedOn(n, task.pc)
    case Open => n.(own := Some(|s.conns|))
    case Refuse => n.(refused := true)
    case Proceed =>
      if task.pc.Sealing? && |task.packet| != PACKET_SIZE then FailedOn(n, task.pc)
      else if task.pc.Reading? && task.pc.v < |s.conns| then
        n.(stamps := n.stamps[task.pc.k := s.conns[task.pc.v].lastUsed])
      else n
    case Pick(_) => n
  }

  // -------------------------------------------------------------- the story so far

  /** The call found no pooled connection, or its write on the one it found failed. */
  predicate MayOpen(n: Note) {
    n.found.None? || n.found.value in n.failedOn
  }

  /** The call works on `c`: the pooled connection that it found, or the one that it opened. */
  predicate Works(n: Note, c: nat, isNew: bool) {
    && n.looked && !n.refused && c !in n.failedOn && n.stamps == map[]
    && if isNew then n.own == Some(c) && MayOpen(n) else n.found == Some(c) && n.own.None? && n.failedOn == {}
  }

  /** The last byte went out on `c`, and the time stamp of `c` is no older than that. */
  predicate Delivered(n: Note, conns: seq<Conn>, c: nat) {
    && n.sent.Some? && n.sent.value.c == c < |conns| && n.sent.value.at <= conns[c].lastUsed
    && c !in n.failedOn && !n.refused
  }

  /** The call is done with its new connection and has yet to put it into the pool. */
  predicate Places(n: Note, conns: seq<Conn>, c: nat) {
    n.looked && n.own == Some(c) && MayOpen(n) && Delivered(n, conns, c)
  }

  /** The scan has noted the stamps of `seen`, and its choice is one with the oldest of them. */
  ghost predicate Chooses(stamps: map<PoolKey, nat>, seen: set<PoolKey>, oldest: Option<Oldest>) {
    && stamps.Keys == seen
    && if oldest.None? then seen == {}
       else
         && oldest.value.key in stamps && oldest.value.ts == stamps[oldest.value.key]
         && forall k :: k in stamps ==> oldest.value.ts <= stamps[k]
  }

  /** No entry is older now than when the scan read its stamp. */
  ghost predicate ReadsHold(conns: seq<Conn>, pool: map<PoolKey, nat>, stamps: map<PoolKey, nat>) {
    forall k :: k in stamps && k in pool && pool[k] < |conns| ==> stamps[k] <= conns[pool[k]].lastUsed
  }

  predicate Succeeded(n: Note, conns: seq<Conn>) {
    && n.looked && n.sent.Some? && Delivered(n, conns, n.sent.value.c)
    && if MayOpen(n) then n.own == Some(n.sent.value.c) else n.own.None? && n.found == Some(n.sent.value.c)
  }

  predicate GaveUp(n: Note) {
    n.looked && n.sent.None? && MayOpen(n) && (n.refused || (n.own.Some? && n.own.value in n.failedOn))
  }

  /** Nothing failed but, perhaps, the write on the connection that it found. */
  predicate Seeks(n: Note, conns: seq<Conn>) {
    && n.looked && n.own.None? && !n.refused && n.sent.None? && n.stamps == map[]
    && if n.found.None? then n.failedOn == {} else n.failedOn == {n.found.value} && n.found.value < |conns|
  }

  ghost predicate Scans(stamps: map<PoolKey, nat>, conns: seq<Conn>, pool: map<PoolKey, nat>, pc: Pc)
    requires InScan(pc)
  {
    Chooses(stamps, Visited(pool, pc), pc.oldest) && ReadsHold(conns, pool, stamps)
  }

  /** What the notes say of a call at each program point. */
  ghost predicate Story(n: Note, key: PoolKey, pc: Pc, conns: seq<Conn>, pool: map<PoolKey, nat>) {
    match pc
    case WantLookup => n == BLANK
    case Looking => n == BLANK.(looked := true, found := Lookup(pool, key))
    case WantNoise(c, isNew) => Works(n, c, isNew) && n.sent.None?
    case WantSend(c, isNew) => Works(n, c, isNew) && n.sent.None?
    case Sealing(c, isNew) => Works(n, c, isNew) && n.sent.None?
    case Writing(c, isNew, _) => Works(n, c, isNew) && n.sent.None?
    case WantStamp(c, isNew, ts) => Works(n, c, isNew) && n.sent == Some(Last(c, ts))
    case Stamping(c, isNew, ts) => Works(n, c, isNew) && n.sent == Some(Last(c, ts))
    case WantRemove => Seeks(n, conns) && n.found.Some?
    case Removing => Seeks(n, conns) && n.found.Some?
    case Opening => Seeks(n, conns)
    case WantInsert(c) => Places(n, conns, c) && n.stamps == map[]
    case Inserting(c) => Places(n, conns, c) && n.stamps == map[]
    case Scanning(c, _, _) => Places(n, conns, c) && Scans(n.stamps, conns, pool, pc)
    case WantRead(c, _, _, _, _) => Places(n, conns, c) && Scans(n.stamps, conns, pool, pc)
    case Reading(c, _, _, _, _) => Places(n, conns, c) && Scans(n.stamps, conns, pool, pc)
    case Finished(ok) => if ok then Succeeded(n, conns) else GaveUp(n)
  }

  /** The notes are true of call `t`. */
  ghost predicate Told(n: Note, s: State, t: nat)
    requires t < |s.tasks|
  {
    Story(n, s.tasks[t].key, s.tasks[t].pc, s.conns, s.pool)
  }

  /** What the observer adds is true after the step. */
  ghost predicate Tells(n: Note, s: State, step: Step, e: Effect)
    requires step.task < |s.tasks|
  {
    Story(Observe(n, s, step), s.tasks[step.task].key, e.pc, e.conns, e.pool)
  }

  ghost predicate Stories(s: State, notes: seq<Note>) {
    |notes| == |s.tasks| && forall t :: 0 <= t < |s.tasks| ==> Told(notes[t], s, t)
  }

  // ------------------------------------------------------------ one call's steps

  lemma AcquireTells(n: Note, s: State, step: Step, cfg: Config)
    requires Typed(s) && Enabled(s, step) && step.action.Acquire?
    requires Told(n, s, step.task)
    ensures Tells(n, s, step, EffectOf(s, step, cfg))
  {
  }

  lemma TransmitTells(n: Note, s: State, step: Step, cfg: Config)
    requires Typed(s) && Enabled(s, step) && step.action.Transmit?
    requires Told(n, s, step.task)
    ensures Tells(n, s, step, EffectOf(s, step, cfg))
  {
    assert PcOk(s.conns, s.pool, s.tasks[step.task].key, s.tasks[step.task].pc);
  }

  lemma BreakTells(n: Note, s: State, step: Step, cfg: Config)
    requires Typed(s) && Enabled(s, step) && step.action.Break?
    requires Told(n, s, step.task)
    ensures Tells(n, s, step, EffectOf(s, step, cfg))
  {
    assert PcOk(s.conns, s.pool, s.tasks[step.task].key, s.tasks[step.task].pc);
  }

  lemma OpenTells(n: Note, s: State, step: Step, cfg: Config)
    requires Typed(s) && Enabled(s, step) && (step.action.Open? || step.action.Refuse?)
    requires Told(n, s, step.task)
    ensures Tells(n, s, step, EffectOf(s, step, cfg))
  {
  }

  lemma PickTells(n: Note, s: State, step: Step, cfg: Config)
    requires Typed(s) && Enabled(s, step) && step.action.Pick?
    requires Told(n, s, step.task)
    ensures Tells(n, s, step, EffectOf(s, step, cfg))
  {
    var pc := s.tasks[step.task].pc;
    assert PcOk(s.conns, s.pool, s.tasks[step.task].key, pc);
    assert s.pool.Keys - pc.todo == s.pool.Keys - (pc.todo - {step.action.k}) - {step.action.k};
  }

  /** One more stamp read and compared. */
  lemma ReadChooses(stamps: map<PoolKey, nat>, seen: set<PoolKey>, oldest: Option<Oldest>, k: PoolKey, ts: nat)
    requires Chooses(stamps, seen, oldest) && k !in seen
    ensures Chooses(stamps[k := ts], seen + {k}, Older(oldest, k, ts))
  {
  }

  lemma ReadTells(n: Note, s: State, step: Step, cfg: Config)
    requires Typed(s) && Enabled(s, step) && step.action.Proceed? && s.tasks[step.task].pc.Reading?
    requires Told(n, s, step.task)
    ensures Tells(n, s, step, EffectOf(s, step, cfg))
  {
    var pc := s.tasks[step.task].pc;
    assert PcOk(s.conns, s.pool, s.tasks[step.task].key, pc) && PoolOk(s.conns, s.pool);
    assert s.pool.Keys - pc.todo == s.pool.Keys - pc.todo - {pc.k} + {pc.k};
    ReadChooses(n.stamps, Visited(s.pool, pc), pc.oldest, pc.k, s.conns[pc.v].lastUsed);
  }

  lemma LookTells(n: Note, s: State, step: Step, cfg: Config)
    requires Typed(s) && Enabled(s, step) && step.action.Proceed? && Told(n, s, step.task)
    requires s.tasks[step.task].pc.Looking? || s.tasks[step.task].pc.Removing?
    ensures Tells(n, s, step, EffectOf(s, step, cfg))
  {
    assert PcOk(s.conns, s.pool, s.tasks[step.task].key, s.tasks[step.task].pc);
  }

  lemma SealTells(n: Note, s: State, step: Step, cfg: Config)
    requires Typed(s) && Enabled(s, step) && step.action.Proceed? && Told(n, s, step.task)
    requires s.tasks[step.task].pc.Sealing?
    ensures Tells(n, s, step, EffectOf(s, step, cfg))
  {
    assert PcOk(s.conns, s.pool, s.tasks[step.task].key, s.tasks[step.task].pc);
  }

  lemma StampTells(n: Note, s: State, step: Step, cfg: Config)
    requires Typed(s) && StampInv(s) && Enabled(s, step) && step.action.Proceed? && Told(n, s, step.task)
    requires s.tasks[step.task].pc.Stamping?
    ensures Tells(n, s, step, EffectOf(s, step, cfg))
  {
    assert PcOk(s.conns, s.pool, s.tasks[step.task].key, s.tasks[step.task].pc);
    assert StampOk(s.conns, s.clock, s.tasks[step.task].pc);
  }

  lemma InsertTells(n: Note, s: State, step: Step, cfg: Config)
    requires Typed(s) && Enabled(s, step) && step.action.Proceed? && Told(n, s, step.task)
    requires s.tasks[step.task].pc.Inserting?
    ensures Tells(n, s, step, EffectOf(s, step, cfg))
  {
    assert s.pool.Keys - s.pool.Keys == {};
  }

  lemma ScanEndTells(n: Note, s: State, step: Step, cfg: Config)
    requires Typed(s) && Enabled(s, step) && step.action.Proceed? && Told(n, s, step.task)
    requires s.tasks[step.task].pc.Scanning?
    ensures Tells(n, s, step, EffectOf(s, step, cfg))
  {
  }

  lemma ProceedTells(n: Note, s: State, step: Step, cfg: Config)
    requires Typed(s) && StampInv(s) && Enabled(s, step) && step.action.Proceed? && Told(n, s, step.task)
    ensures Tells(n, s, step, EffectOf(s, step, cfg))
  {
    match s.tasks[step.task].pc
    case Looking => LookTells(n, s, step, cfg);
    case Removing => LookTells(n, s, step, cfg);
    case Sealing(_, _) => SealTells(n, s, step, cfg);
    case Stamping(_, _, _) => StampTells(n, s, step, cfg);
    case Inserting(_) => InsertTells(n, s, step, cfg);
    case Scanning(_, _, _) => ScanEndTells(n, s, step, cfg);
    case Reading(_, _, _, _, _) => ReadTells(n, s, step, cfg);
  }

  lemma OwnStory(n: Note, s: State, step: Step, cfg: Config)
    requires Typed(s) && StampInv(s) && Enabled(s, step)
    requires Told(n, s, step.task)
    ensures Tells(n, s, step, EffectOf(s, step, cfg))
  {
    match step.action
    case Acquire => AcquireTells(n, s, step, cfg);
    case Proceed => ProceedTells(n, s, step, cfg);
    case Transmit(_) => TransmitTells(n, s, step, cfg);
    case Break => BreakTells(n, s, step, cfg);
    case Open => OpenTells(n, s, step, cfg);
    case Refuse => OpenTells(n, s, step, cfg);
    case Pick(_) => PickTells(n, s, step, cfg);
  }

  // ------------------------------------------------------------- the other calls

  /** Connections are kept, and their stamps only move forward. */
  ghost predicate Ages(was: seq<Conn>, now: seq<Conn>) {
    |was| <= |now| && forall c :: 0 <= c < |was| ==> was[c].lastUsed <= now[c].lastUsed
  }

  lemma ConnsAge(s: State, step: Step, cfg: Config)
    requires Typed(s) && StampInv(s) && Enabled(s, step)
    ensures Ages(s.conns, EffectOf(s, step, cfg).conns)
  {
    ConnsKeepKeys(s, step, cfg);
    forall c | 0 <= c < |s.conns| ensures s.conns[c].lastUsed <= EffectOf(s, step, cfg).conns[c].lastUsed {
      StampsMove(s, step, cfg, c);
    }
  }

  /** A story stays true while connections age, and the pool stays as it is if the call has it locked. */
  lemma StoryOutlives(n: Note, key: PoolKey, pc: Pc, a: seq<Conn>, b: seq<Conn>, p: map<PoolKey, nat>,
                      q: map<PoolKey, nat>)
    requires Story(n, key, pc, a, p) && Ages(a, b) && PoolOk(a, p) && (PoolLock in Held(pc) ==> p == q)
    ensures Story(n, key, pc, b, q)
  {
  }

  lemma OtherStory(s: State, notes: seq<Note>, step: Step, cfg: Config, u: nat)
    requires Typed(s) && LockInv(s) && StampInv(s) && Stories(s, notes) && Enabled(s, step)
    requires u < |s.tasks| && u != step.task
    ensures var e := EffectOf(s, step, cfg); Story(notes[u], s.tasks[u].key, s.tasks[u].pc, e.conns, e.pool)
  {
    var e := EffectOf(s, step, cfg);
    assert Told(notes[u], s, u);
    ConnsAge(s, step, cfg);
    PoolChangesUnderLock(s, step, cfg);
    if PoolLock in Held(s.tasks[u].pc) && PoolLock in Held(s.tasks[step.task].pc) {
      Alone(s, u, step.task, PoolLock);
    }
    StoryOutlives(notes[u], s.tasks[u].key, s.tasks[u].pc, s.conns, e.conns, s.pool, e.pool);
  }

  /** The notes on all calls after a step. */
  function Noted(notes: seq<Note>, s: State, step: Step): seq<Note>
    requires step.task < |s.tasks| == |notes|
  {
    notes[step.task := Observe(notes[step.task], s, step)]
  }

  lemma StoriesKept(s: State, notes: seq<Note>, step: Step, cfg: Config)
    requires Typed(s) && LockInv(s) && StampInv(s) && Stories(s, notes) && Enabled(s, step)
    ensures Stories(Next(s, step, cfg), Noted(notes, s, step))
  {
    var s', notes' := Next(s, step, cfg), Noted(notes, s, step);
    forall u | 0 <= u < |s'.tasks| ensures Told(notes'[u], s', u) {
      if u == step.task {
        assert Told(notes[u], s, u);
        OwnStory(notes[u], s, step, cfg);
      } else {
        OtherStory(s, notes, step, cfg, u);
      }
    }
  }

  // -------------------------------------------------------------- full when scanned

  /** A scan happens only in a full pool, which stays locked. */
  ghost predicate FullScans(s: State, cfg: Config) {
    forall t :: 0 <= t < |s.tasks| && InScan(s.tasks[t].pc) ==> |s.pool| >= cfg.maxSize
  }

  lemma ScanStartsFull(s: State, step: Step, cfg: Config)
    requires Typed(s) && Enabled(s, step) && InScan(EffectOf(s, step, cfg).pc)
    ensures EffectOf(s, step, cfg).pool == s.pool
    ensures InScan(s.tasks[step.task].pc) || |s.pool| >= cfg.maxSize
  {
  }

  lemma LockedPoolStays(s: State, step: Step, cfg: Config, u: nat)
    requires Typed(s) && LockInv(s) && Enabled(s, step) && u < |s.tasks| && u != step.task
    requires PoolLock in Held(s.tasks[u].pc)
    ensures EffectOf(s, step, cfg).pool == s.pool
  {
    PoolChangesUnderLock(s, step, cfg);
    if PoolLock in Held(s.tasks[step.task].pc) {
      Alone(s, u, step.task, PoolLock);
    }
  }

  lemma OtherScanIsFull(s: State, step: Step, cfg: Config, e: Effect, u: nat)
    requires Typed(s) && LockInv(s) && FullScans(s, cfg) && Enabled(s, step) && e == EffectOf(s, step, cfg)
    requires u < |s.tasks| && u != step.task && InScan(s.tasks[u].pc)
    ensures |e.pool| >= cfg.maxSize
  {
    LockedPoolStays(s, step, cfg, u);
  }

  lemma OwnScanIsFull(s: State, step: Step, cfg: Config, e: Effect)
    requires Typed(s) && FullScans(s, cfg) && Enabled(s, step) && e == EffectOf(s, step, cfg) && InScan(e.pc)
    ensures |e.pool| >= cfg.maxSize
  {
    ScanStartsFull(s, step, cfg);
  }

  lemma FullScansKept(s: State, step: Step, cfg: Config, s': State)
    requires Typed(s) && LockInv(s) && FullScans(s, cfg) && Enabled(s, step) && s' == Next(s, step, cfg)
    ensures FullScans(s', cfg)
  {
    forall u | 0 <= u < |s'.tasks| && InScan(s'.tasks[u].pc) ensures |s'.pool| >= cfg.maxSize {
      if u == step.task {
        OwnScanIsFull(s, step, cfg, EffectOf(s, step, cfg));
      } else {
        OtherScanIsFull(s, step, cfg, EffectOf(s, step, cfg), u);
      }
    }
  }

  // ------------------------------------------------------------ changes of the pool

  /** All entries were read, and none had an older stamp than `k`. */
  ghost predicate LongestIdle(pool: map<PoolKey, nat>, stamps: map<PoolKey, nat>, k: PoolKey) {
    k in pool && stamps.Keys == pool.Keys && forall j :: j in pool ==> stamps[k] <= stamps[j]
  }

  /** `pool` with the call's own connection in it, in place of an entry idle for longest if it was full. */
  ghost predicate Takes(pool: map<PoolKey, nat>, now: map<PoolKey, nat>, n: Note, key: PoolKey, maxSize: nat)
    requires n.own.Some?
  {
    if |pool| < maxSize then now == pool[key := n.own.value]
    else exists k :: LongestIdle(pool, n.stamps, k) && now == (pool - {k})[key := n.own.value]
  }

  /**
   How a step may change the pool: a call whose write on the pooled connection failed drops
   the entry of its peer, and a call that has sent on a connection of its own puts that in.
   */
  ghost predicate Moves(pool: map<PoolKey, nat>, now: map<PoolKey, nat>, n: Note, key: PoolKey, maxSize: nat) {
    || now == pool
    || (n.found.Some? && n.found.value in n.failedOn && n.own.None? && now == pool - {key})
    || (n.own.Some? && n.sent.Some? && n.sent.value.c == n.own.value && Takes(pool, now, n, key, maxSize))
  }

  lemma ScanEndTakes(n: Note, s: State, t: nat, cfg: Config)
    requires Typed(s) && t < |s.tasks| && Told(n, s, t) && Proper(cfg) && |s.pool| >= cfg.maxSize
    requires s.tasks[t].pc.Scanning? && s.tasks[t].pc.todo == {}
    ensures n.own.Some? && Takes(s.pool, Advance(s, t, cfg).pool, n, s.tasks[t].key, cfg.maxSize)
  {
    var oldest := s.tasks[t].pc.oldest;
    assert s.pool.Keys - {} == s.pool.Keys && |s.pool| == |s.pool.Keys|;
    assert LongestIdle(s.pool, n.stamps, oldest.value.key);
  }

  lemma PoolUntouched(s: State, step: Step, cfg: Config)
    requires Typed(s) && Enabled(s, step)
    requires var pc := s.tasks[step.task].pc;
             !(step.action.Proceed? && (pc.Removing? || pc.Inserting? || pc.Scanning?))
    ensures EffectOf(s, step, cfg).pool == s.pool
  {
  }

  lemma RemoveMoves(n: Note, s: State, t: nat, cfg: Config)
    requires Typed(s) && t < |s.tasks| && Told(n, s, t) && s.tasks[t].pc.Removing?
    ensures Moves(s.pool, Advance(s, t, cfg).pool, n, s.tasks[t].key, cfg.maxSize)
  {
  }

  lemma InsertMoves(n: Note, s: State, t: nat, cfg: Config)
    requires Typed(s) && t < |s.tasks| && Told(n, s, t) && s.tasks[t].pc.Inserting?
    ensures Moves(s.pool, Advance(s, t, cfg).pool, n, s.tasks[t].key, cfg.maxSize)
  {
  }

  lemma ScanEndMoves(n: Note, s: State, t: nat, cfg: Config)
    requires Typed(s) && t < |s.tasks| && Told(n, s, t) && Proper(cfg) && |s.pool| >= cfg.maxSize
    requires s.tasks[t].pc.Scanning? && s.tasks[t].pc.todo == {}
    ensures Moves(s.pool, Advance(s, t, cfg).pool, n, s.tasks[t].key, cfg.maxSize)
  {
    ScanEndTakes(n, s, t, cfg);
  }

  lemma StepMoves(n: Note, s: State, step: Step, cfg: Config)
    requires Typed(s) && Enabled(s, step) && Told(n, s, step.task) && Proper(cfg)
    requires InScan(s.tasks[step.task].pc) ==> |s.pool| >= cfg.maxSize
    ensures Moves(s.pool, EffectOf(s, step, cfg).pool, n, s.tasks[step.task].key, cfg.maxSize)
  {
    var pc := s.tasks[step.task].pc;
    if !step.action.Proceed? {
      PoolUntouched(s, step, cfg);
    } else if pc.Removing? {
      RemoveMoves(n, s, step.task, cfg);
    } else if pc.Inserting? {
      InsertMoves(n, s, step.task, cfg);
    } else if pc.Scanning? {
      ScanEndMoves(n, s, step.task, cfg);
    } else {
      PoolUntouched(s, step, cfg);
    }
  }

  /** With the step that ends a call well, its own connection, if it opened one, is in the pool. */
  ghost predicate Settles(pool: map<PoolKey, nat>, now: map<PoolKey, nat>, n: Note, key: PoolKey, pc: Pc) {
    && (pc == Finished(true) ==> if n.own.Some? then Lookup(now, key) == n.own else now == pool)
    && (pc == Opening ==> key !in now)
  }

  lemma ProceedSettles(n: Note, s: State, t: nat, cfg: Config)
    requires Typed(s) && t < |s.tasks| && Told(n, s, t) && Enabled(s, Step(t, Proceed, s.clock))
    ensures var e := Advance(s, t, cfg); Settles(s.pool, e.pool, n, s.tasks[t].key, e.pc)
  {
  }

  lemma OtherSettles(n: Note, s: State, step: Step, cfg: Config)
    requires Typed(s) && Enabled(s, step) && !step.action.Proceed?
    ensures var e := EffectOf(s, step, cfg); Settles(s.pool, e.pool, n, s.tasks[step.task].key, e.pc)
  {
  }

  lemma StepSettles(n: Note, s: State, step: Step, cfg: Config)
    requires Typed(s) && Enabled(s, step) && Told(n, s, step.task)
    ensures var e := EffectOf(s, step, cfg); Settles(s.pool, e.pool, n, s.tasks[step.task].key, e.pc)
  {
    if step.action.Proceed? {
      ProceedSettles(n, s, step.task, cfg);
    } else {
      OtherSettles(n, s, step, cfg);
    }
  }

  // --------------------------------------------------------------- what it amounts to

  ghost predicate Explains(n: Note, pc: Pc, conns: seq<Conn>) {
    && (n.own.Some? ==> MayOpen(n))
    && (pc == Finished(true) ==> Succeeded(n, conns))
    && (pc == Finished(false) ==> GaveUp(n))
  }

  lemma StoryExplains(n: Note, key: PoolKey, pc: Pc, conns: seq<Conn>, pool: map<PoolKey, nat>)
    requires Story(n, key, pc, conns, pool)
    ensures Explains(n, pc, conns)
    ensures !pc.Finished? ==> ReadsHold(conns, pool, n.stamps)
  {
  }

  /** A change of the pool from `s` to `s'` by call `t`, of which `n` was noted before. */
  ghost predicate ExplainsPool(n: Note, s: State, s': State, t: nat, maxSize: nat)
    requires t < |s.tasks| == |s'.tasks|
  {
    && Moves(s.pool, s'.pool, n, s.tasks[t].key, maxSize) && ReadsHold(s.conns, s.pool, n.stamps)
    && Settles(s.pool, s'.pool, n, s.tasks[t].key, s'.tasks[t].pc)
  }

  lemma StepExplains(n: Note, s: State, step: Step, cfg: Config, s': State)
    requires Typed(s) && Enabled(s, step) && Told(n, s, step.task) && Proper(cfg) && s' == Next(s, step, cfg)
    requires InScan(s.tasks[step.task].pc) ==> |s.pool| >= cfg.maxSize
    ensures ExplainsPool(n, s, s', step.task, cfg.maxSize)
  {
    StoryExplains(n, s.tasks[step.task].key, s.tasks[step.task].pc, s.conns, s.pool);
    StepMoves(n, s, step, cfg);
    StepSettles(n, s, step, cfg);
  }

  // -------------------------------------------------------------------- runs

  /** The notes on all calls after a run. */
  ghost function NotesAfter(s: State, notes: seq<Note>, run: seq<Step>, cfg: Config): (r: seq<Note>)
    requires Safe(s, cfg) && Proper(cfg) && ValidRun(s, run, cfg) && |notes| == |s.tasks|
    ensures |r| == |After(s, run, cfg).tasks| == |s.tasks|
    decreases |run|
  {
    if run == [] then notes
    else
      StepIsSafe(s, run[0], cfg);
      NotesAfter(Next(s, run[0], cfg), Noted(notes, s, run[0]), run[1..], cfg)
  }

  ghost function Blank(n: nat): (notes: seq<Note>)
    ensures |notes| == n
  {
    seq(n, _ => BLANK)
  }

  /** What an observer of an interleaving has noted of each call. */
  ghost function Notes(s: State, run: seq<Step>, cfg: Config): (r: seq<Note>)
    requires Interleaves(s, run, cfg)
    ensures |r| == |Reached(s, run, cfg).tasks| == |s.tasks|
  {
    InitialIsSafe(s, cfg);
    NotesAfter(s, Blank(|s.tasks|), run, cfg)
  }

  lemma {:induction false} RunKeepsStories(s: State, notes: seq<Note>, run: seq<Step>, cfg: Config)
    requires Safe(s, cfg) && Proper(cfg) && ValidRun(s, run, cfg) && Stories(s, notes) && FullScans(s, cfg)
    ensures var r := After(s, run, cfg); Stories(r, NotesAfter(s, notes, run, cfg)) && FullScans(r, cfg)
    decreases |run|
  {
    if run == [] {
    } else {
      StepIsSafe(s, run[0], cfg);
      StoriesKept(s, notes, run[0], cfg);
      FullScansKept(s, run[0], cfg, Next(s, run[0], cfg));
      RunKeepsStories(Next(s, run[0], cfg), Noted(notes, s, run[0]), run[1..], cfg);
    }
  }

  lemma NotesAreTrue(s: State, run: seq<Step>, cfg: Config)
    requires Interleaves(s, run, cfg)
    ensures Stories(Reached(s, run, cfg), Notes(s, run, cfg)) && FullScans(Reached(s, run, cfg), cfg)
  {
    InitialIsSafe(s, cfg);
    RunKeepsStories(s, Blank(|s.tasks|), run, cfg);
  }

  lemma NoteIsTrue(s: State, run: seq<Step>, cfg: Config, t: nat, r: State, n: Note)
    requires Interleaves(s, run, cfg) && t < |s.tasks| && r == Reached(s, run, cfg) && n == Notes(s, run, cfg)[t]
    ensures |r.tasks| == |s.tasks| && Told(n, r, t) && (InScan(r.tasks[t].pc) ==> |r.pool| >= cfg.maxSize)
  {
    NotesAreTrue(s, run, cfg);
  }

  /**
   What a call does, in every interleaving. It opens a connection only if it found none in
   the pool or its write on the one it found failed. If it returns Ok, its last byte went out
   on the connection that it found, if it found one and its write there did not fail, and
   otherwise on the one that it opened; and the time stamp of that connection is no older. If
   it fails, it was refused a new connection, or its write on the new one failed.
   */
  lemma CallIsExplained(s: State, run: seq<Step>, cfg: Config, t: nat)
    requires Interleaves(s, run, cfg) && t < |s.tasks|
    ensures var r, n := Reached(s, run, cfg), Notes(s, run, cfg)[t];
            |r.tasks| == |s.tasks| && Explains(n, r.tasks[t].pc, r.conns)
  {
    var r, n := Reached(s, run, cfg), Notes(s, run, cfg)[t];
    NoteIsTrue(s, run, cfg, t, r, n);
    StoryExplains(n, r.tasks[t].key, r.tasks[t].pc, r.conns, r.pool);
  }

  /**
   How the pool changes, in every interleaving: a step leaves it alone, or drops the entry of
   the call's peer after the call's write on the pooled connection failed, or puts in the
   connection that the call opened and sent on, in place of an entry whose stamp as read was
   no newer than any other's if the pool was full. A call that opened a connection and returns
   Ok leaves it in the pool, and one that is about to open one has no entry there.
   */
  lemma PoolChangesAreExplained(s: State, run: seq<Step>, cfg: Config, step: Step)
    requires Interleaves(s, run, cfg) && Enabled(Reached(s, run, cfg), step)
    ensures var r := Reached(s, run, cfg);
            ExplainsPool(Notes(s, run, cfg)[step.task], r, Next(r, step, cfg), step.task, cfg.maxSize)
  {
    var r, n := Reached(s, run, cfg), Notes(s, run, cfg)[step.task];
    NoteIsTrue(s, run, cfg, step.task, r, n);
    StepExplains(n, r, step, cfg, Next(r, step, cfg));
  }
}
