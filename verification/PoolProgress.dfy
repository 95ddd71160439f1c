/**
 Progress of the connection pool: no interleaving deadlocks, and every one of them ends with
 all calls finished, without any assumption on the scheduler.
 */
module PoolProgress {
  import opened NoiseFraming
  import opened PoolModel
  import opened PoolSafety

  // --------------------------------------------------------------- deadlock

  /** The order in which locks are taken: pool or session first, then the stream, then a time stamp. */
  function Rank(l: Lock): nat {
    match l
    case PoolLock => 0
    case NoiseLock(_) => 0
    case SendLock(_) => 1
    case StampLock(_) => 2
  }

  /** A task only waits for a lock that ranks above all those it holds. */
  lemma LocksAreRanked(pc: Pc, l: Lock)
    requires Wanted(pc).Some? && l in Held(pc)
    ensures Rank(l) < Rank(Wanted(pc).value)
  {
  }

  ghost predicate CanMove(s: State, t: nat) {
    exists action :: Enabled(s, Step(t, action, s.clock))
  }

  /** A task that waits for nothing can move, and so can one whose lock is free. */
  lemma NotBlocked(s: State, t: nat)
    requires Typed(s) && t < |s.tasks| && !s.tasks[t].pc.Finished?
    requires Wanted(s.tasks[t].pc).Some? ==> Wanted(s.tasks[t].pc).value !in s.locks
    ensures CanMove(s, t)
  {
    var pc := s.tasks[t].pc;
    assert PcOk(s.conns, s.pool, s.tasks[t].key, pc);
    var action :=
      if Wanted(pc).Some? then Acquire
      else if pc.Opening? then Open
      else if pc.Writing? then Transmit(1)
      else if pc.Scanning? && pc.todo != {} then var k :| k in pc.todo; Pick(k)
      else Proceed;
    assert Enabled(s, Step(t, action, s.clock));
  }

  /** Following holders of wanted locks up the ranks leads to a task that can move. */
  lemma {:induction false} FindMover(s: State, t: nat) returns (u: nat)
    requires Typed(s) && LockInv(s) && t < |s.tasks| && !s.tasks[t].pc.Finished?
    ensures u < |s.tasks| && CanMove(s, u)
    decreases if Wanted(s.tasks[t].pc).Some? then 3 - Rank(Wanted(s.tasks[t].pc).value) else 0
  {
    var pc := s.tasks[t].pc;
    if Wanted(pc).Some? && Wanted(pc).value in s.locks {
      var l := Wanted(pc).value;
      var holder := s.locks[l];
      assert l in Held(s.tasks[holder].pc);
      if Wanted(s.tasks[holder].pc).Some? {
        LocksAreRanked(s.tasks[holder].pc, l);
      }
      u := FindMover(s, holder);
    } else {
      NotBlocked(s, t);
      u := t;
    }
  }

  /** Deadlock freedom: in every reachable state with an unfinished call, some call can step. */
  lemma DeadlockFree(cfg: Config, r: State, t: nat)
    requires Reachable(cfg, r) && t < |r.tasks| && !r.tasks[t].pc.Finished?
    ensures exists u: nat :: u < |r.tasks| && CanMove(r, u)
  {
    PoolIsSafe(cfg, r);
    var u := FindMover(r, t);
  }

  // ------------------------------------------------------------- termination

  /** Bounds on the steps that a call still has ahead, from its insertion and from its opening on. */
  function InsertWeight(cfg: Config): nat {
    3 + 3 * cfg.maxSize
  }

  function OpenWeight(cfg: Config): nat {
    InsertWeight(cfg) + 6 + FRAME_LEN
  }

  /** What lies ahead of a write: a cached connection may fail and lead to a new one. */
  function Ahead(isNew: bool, cfg: Config): nat {
    if isNew then InsertWeight(cfg) else OpenWeight(cfg)
  }

  function Weight(pc: Pc, cfg: Config): nat {
    match pc
    case WantLookup => OpenWeight(cfg) + 7 + FRAME_LEN
    case Looking => OpenWeight(cfg) + 6 + FRAME_LEN
    case WantNoise(_, isNew) => Ahead(isNew, cfg) + 5 + FRAME_LEN
    case WantSend(_, isNew) => Ahead(isNew, cfg) + 4 + FRAME_LEN
    case Sealing(_, isNew) => Ahead(isNew, cfg) + 3 + FRAME_LEN
    case Writing(_, isNew, left) => Ahead(isNew, cfg) + 2 + |left|
    case WantStamp(_, isNew, _) => if isNew then InsertWeight(cfg) + 2 else 2
    case Stamping(_, isNew, _) => if isNew then InsertWeight(cfg) + 1 else 1
    case WantRemove => OpenWeight(cfg) + 2
    case Removing => OpenWeight(cfg) + 1
    case Opening => OpenWeight(cfg)
    case WantInsert(_) => InsertWeight(cfg)
    case Inserting(_) => InsertWeight(cfg) - 1
    case Scanning(_, todo, _) => 1 + 3 * |todo|
    case WantRead(_, _, _, todo, _) => 3 + 3 * |todo|
    case Reading(_, _, _, todo, _) => 2 + 3 * |todo|
    case Finished(_) => 0
  }

  function TotalWeight(tasks: seq<Task>, cfg: Config): nat {
    if tasks == [] then 0 else TotalWeight(tasks[..|tasks| - 1], cfg) + Weight(tasks[|tasks| - 1].pc, cfg)
  }

  lemma {:induction false} TotalWeightUpdate(tasks: seq<Task>, t: nat, task: Task, cfg: Config)
    requires t < |tasks|
    ensures TotalWeight(tasks[t := task], cfg) ==
        TotalWeight(tasks, cfg) - Weight(tasks[t].pc, cfg) + Weight(task.pc, cfg)
  {
    var last := |tasks| - 1;
    if t < last {
      TotalWeightUpdate(tasks[..last], t, task, cfg);
      assert tasks[t := task][..last] == tasks[..last][t := task];
    } else {
      assert tasks[t := task][..last] == tasks[..last];
    }
  }

  /** The call at `t` does what comes next by itself. */
  ghost predicate Proceeds(s: State, t: nat, cfg: Config) {
    Typed(s) && Proper(cfg) && |s.pool| <= cfg.maxSize && t < |s.tasks| && Enabled(s, Step(t, Proceed, s.clock))
  }

  lemma SealLosesWeight(s: State, t: nat, cfg: Config)
    requires Proceeds(s, t, cfg) && s.tasks[t].pc.Sealing?
    ensures Weight(Advance(s, t, cfg).pc, cfg) < Weight(s.tasks[t].pc, cfg)
  {
    var task := s.tasks[t];
    assert PcOk(s.conns, s.pool, task.key, task.pc);
    SealedIsWhole(cfg, task.pc.c, s.conns[task.pc.c].nonce, task.packet);
  }

  lemma InsertLosesWeight(s: State, t: nat, cfg: Config)
    requires Proceeds(s, t, cfg) && s.tasks[t].pc.Inserting?
    ensures Weight(Advance(s, t, cfg).pc, cfg) < Weight(s.tasks[t].pc, cfg)
  {
    assert |s.pool| == |s.pool.Keys|;
  }

  lemma LookWeighs(pc: Pc, next: Pc, cfg: Config)
    requires pc.Looking? || pc.Removing?
    requires next == Opening || (pc.Looking? && next.WantNoise? && !next.isNew)
    ensures Weight(next, cfg) < Weight(pc, cfg)
  {
  }

  lemma LookLeadsTo(s: State, t: nat, cfg: Config)
    requires Typed(s) && t < |s.tasks| && Enabled(s, Step(t, Proceed, s.clock))
    requires s.tasks[t].pc.Looking? || s.tasks[t].pc.Removing?
    ensures var next := Advance(s, t, cfg).pc;
            next == Opening || (s.tasks[t].pc.Looking? && next.WantNoise? && !next.isNew)
  {
  }

  lemma LookLosesWeight(s: State, t: nat, cfg: Config)
    requires Proceeds(s, t, cfg) && (s.tasks[t].pc.Looking? || s.tasks[t].pc.Removing?)
    ensures Weight(Advance(s, t, cfg).pc, cfg) < Weight(s.tasks[t].pc, cfg)
  {
    LookLeadsTo(s, t, cfg);
    LookWeighs(s.tasks[t].pc, Advance(s, t, cfg).pc, cfg);
  }

  lemma StampLosesWeight(s: State, t: nat, cfg: Config)
    requires Proceeds(s, t, cfg) && s.tasks[t].pc.Stamping?
    ensures Weight(Advance(s, t, cfg).pc, cfg) < Weight(s.tasks[t].pc, cfg)
  {
  }

  lemma ScanLosesWeight(s: State, t: nat, cfg: Config)
    requires Proceeds(s, t, cfg) && (s.tasks[t].pc.Reading? || s.tasks[t].pc.Scanning?)
    ensures Weight(Advance(s, t, cfg).pc, cfg) < Weight(s.tasks[t].pc, cfg)
  {
  }

  lemma ProceedLosesWeight(s: State, t: nat, cfg: Config)
    requires Proceeds(s, t, cfg)
    ensures Weight(Advance(s, t, cfg).pc, cfg) < Weight(s.tasks[t].pc, cfg)
  {
    match s.tasks[t].pc
    case Looking => LookLosesWeight(s, t, cfg);
    case Removing => LookLosesWeight(s, t, cfg);
    case Sealing(_, _) => SealLosesWeight(s, t, cfg);
    case Stamping(_, _, _) => StampLosesWeight(s, t, cfg);
    case Inserting(_) => InsertLosesWeight(s, t, cfg);
    case Reading(_, _, _, _, _) => ScanLosesWeight(s, t, cfg);
    case Scanning(_, _, _) => ScanLosesWeight(s, t, cfg);
  }

  lemma AcquireLosesWeight(pc: Pc, cfg: Config)
    requires Wanted(pc).Some?
    ensures Weight(Granted(pc), cfg) < Weight(pc, cfg)
  {
  }

  lemma TransmitLosesWeight(s: State, t: nat, n: nat, now: nat, cfg: Config)
    requires Typed(s) && t < |s.tasks| && s.tasks[t].pc.Writing? && 1 <= n <= |s.tasks[t].pc.left|
    ensures PcOk(s.conns, s.pool, s.tasks[t].key, s.tasks[t].pc)
    ensures Weight(Sent(s, t, n, now).pc, cfg) < Weight(s.tasks[t].pc, cfg)
  {
  }

  /** A new connection, a refusal to open one, or the next entry of a scan. */
  predicate Choice(pc: Pc, next: Pc) {
    || (pc == Opening && next.WantNoise? && next.isNew)
    || (pc == Opening && next == Finished(false))
    || (pc.Scanning? && next.WantRead? && next.k in pc.todo && next.todo == pc.todo - {next.k})
  }

  lemma ChoiceWeighs(pc: Pc, next: Pc, cfg: Config)
    requires Choice(pc, next)
    ensures Weight(next, cfg) < Weight(pc, cfg)
  {
    if pc.Scanning? {
      assert |pc.todo - {next.k}| == |pc.todo| - 1;
    }
  }

  lemma ChoiceLeadsTo(s: State, step: Step, cfg: Config)
    requires Typed(s) && Enabled(s, step) && (step.action.Open? || step.action.Refuse? || step.action.Pick?)
    ensures Choice(s.tasks[step.task].pc, EffectOf(s, step, cfg).pc)
  {
  }

  lemma ChoiceLosesWeight(s: State, step: Step, cfg: Config)
    requires Typed(s) && Enabled(s, step) && (step.action.Open? || step.action.Refuse? || step.action.Pick?)
    ensures Weight(EffectOf(s, step, cfg).pc, cfg) < Weight(s.tasks[step.task].pc, cfg)
  {
    ChoiceLeadsTo(s, step, cfg);
    ChoiceWeighs(s.tasks[step.task].pc, EffectOf(s, step, cfg).pc, cfg);
  }

  lemma BreakLosesWeight(s: State, step: Step, cfg: Config)
    requires Typed(s) && Enabled(s, step) && step.action.Break?
    ensures Weight(EffectOf(s, step, cfg).pc, cfg) < Weight(s.tasks[step.task].pc, cfg)
  {
    assert PcOk(s.conns, s.pool, s.tasks[step.task].key, s.tasks[step.task].pc);
  }

  lemma StepLosesWeight(s: State, step: Step, cfg: Config)
    requires Typed(s) && Enabled(s, step) && Proper(cfg) && |s.pool| <= cfg.maxSize
    ensures Weight(EffectOf(s, step, cfg).pc, cfg) < Weight(s.tasks[step.task].pc, cfg)
  {
    var pc := s.tasks[step.task].pc;
    match step.action
    case Proceed => ProceedLosesWeight(s, step.task, cfg);
    case Acquire => AcquireLosesWeight(pc, cfg);
    case Transmit(n) => TransmitLosesWeight(s, step.task, n, step.now, cfg);
    case Break => BreakLosesWeight(s, step, cfg);
    case Open => ChoiceLosesWeight(s, step, cfg);
    case Refuse => ChoiceLosesWeight(s, step, cfg);
    case Pick(_) => ChoiceLosesWeight(s, step, cfg);
  }

  /** Every step brings the calls closer to the end, so runs are no longer than their weight. */
  lemma {:induction false} RunsLoseWeight(s: State, run: seq<Step>, cfg: Config)
    requires Safe(s, cfg) && Proper(cfg) && ValidRun(s, run, cfg)
    ensures |run| + TotalWeight(After(s, run, cfg).tasks, cfg) <= TotalWeight(s.tasks, cfg)
    decreases |run|
  {
    if run == [] {
    } else {
      var next := Next(s, run[0], cfg);
      StepIsSafe(s, run[0], cfg);
      StepLosesWeight(s, run[0], cfg);
      TotalWeightUpdate(s.tasks, run[0].task, next.tasks[run[0].task], cfg);
      RunsLoseWeight(next, run[1..], cfg);
    }
  }

  lemma {:induction false} InitialWeight(tasks: seq<Task>, cfg: Config)
    requires forall t :: 0 <= t < |tasks| ==> tasks[t].pc == WantLookup
    ensures TotalWeight(tasks, cfg) == |tasks| * Weight(WantLookup, cfg)
  {
    if tasks == [] {
    } else {
      InitialWeight(tasks[..|tasks| - 1], cfg);
    }
  }

  /**
   Termination: no run of `n` calls is longer than `n` times a constant of the configuration,
   and a run that cannot be continued has finished every call.
   */
  lemma EveryRunEnds(s: State, run: seq<Step>, cfg: Config)
    requires Interleaves(s, run, cfg)
    ensures |run| <= |s.tasks| * Weight(WantLookup, cfg)
    ensures var r := Reached(s, run, cfg);
            (forall u: nat :: u < |r.tasks| ==> !CanMove(r, u))
            ==> forall t :: 0 <= t < |r.tasks| ==> r.tasks[t].pc.Finished?
  {
    InitialIsSafe(s, cfg);
    var r := Reached(s, run, cfg);
    RunsLoseWeight(s, run, cfg);
    InitialWeight(s.tasks, cfg);
    if forall u: nat :: u < |r.tasks| ==> !CanMove(r, u) {
      forall t | 0 <= t < |r.tasks| ensures r.tasks[t].pc.Finished? {
        if !r.tasks[t].pc.Finished? {
          var u := FindMover(r, t);
        }
      }
    }
  }
}
