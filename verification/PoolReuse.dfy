/**
 What the pool is for: as long as nothing fails, calls to one peer do not overlap and the
 pool has room for every peer, each peer has one connection, which carries all calls to it.
 Calls to different peers may be interleaved in any way.
 */
module PoolReuse {
  import opened NoiseFraming
  import opened PoolModel
  import opened PoolSafety
  import opened PoolWire

  // ------------------------------------------------------------------ hypotheses

  predicate Busy(pc: Pc) {
    !pc.WantLookup? && !pc.Finished?
  }

  /** Calls to one peer are made one after the other. */
  ghost predicate NoOverlap(s: State) {
    forall t, u :: 0 <= t < u < |s.tasks| && Busy(s.tasks[t].pc) && Busy(s.tasks[u].pc) ==>
      s.tasks[t].key != s.tasks[u].key
  }

  ghost predicate Sized(s: State) {
    forall t :: 0 <= t < |s.tasks| ==> |s.tasks[t].packet| == PACKET_SIZE
  }

  ghost function Peers(s: State): set<PoolKey> {
    set t | 0 <= t < |s.tasks| :: s.tasks[t].key
  }

  predicate Smooth(step: Step) {
    !step.action.Break? && !step.action.Refuse?
  }

  /** No write and no opening fails, and calls to one peer never overlap. */
  ghost predicate CalmRun(s: State, run: seq<Step>, cfg: Config)
    requires Safe(s, cfg) && Proper(cfg) && ValidRun(s, run, cfg)
    decreases |run|
  {
    run != [] ==>
      && NoOverlap(s) && Smooth(run[0])
      && (StepIsSafe(s, run[0], cfg); CalmRun(Next(s, run[0], cfg), run[1..], cfg))
  }

  /** Packets of the right size, and room for every peer. */
  ghost predicate Suits(s: State, cfg: Config) {
    Sized(s) && |Peers(s)| <= cfg.maxSize
  }

  function Ordered(order: seq<nat>, s: State, step: Step): seq<nat>
    requires step.task < |s.tasks|
  {
    if Completes(s, step) then order + [step.task] else order
  }

  /** The calls in the order in which their last bytes go out. */
  ghost function Order(s: State, run: seq<Step>, cfg: Config, order: seq<nat>): seq<nat>
    requires Safe(s, cfg) && Proper(cfg) && ValidRun(s, run, cfg)
    decreases |run|
  {
    if run == [] then order
    else
      StepIsSafe(s, run[0], cfg);
      Order(Next(s, run[0], cfg), run[1..], cfg, Ordered(order, s, run[0]))
  }

  /** The calls to one peer among those in `order`. */
  function CallsTo(tasks: seq<Task>, order: seq<nat>, key: PoolKey): seq<nat> {
    if order == [] then []
    else
      var t := order[|order| - 1];
      CallsTo(tasks, order[..|order| - 1], key) + if t < |tasks| && tasks[t].key == key then [t] else []
  }

  // ------------------------------------------------------------------- invariant

  /** The points that a call without failures passes through. */
  predicate Quiet(pc: Pc) {
    pc != Finished(false) && !pc.WantRemove? && !pc.Removing? && !InScan(pc)
  }

  /** The call has a connection of its own that is not in the pool yet. */
  predicate Carries(pc: Pc, c: nat) {
    || pc == WantNoise(c, true) || pc == WantSend(c, true) || pc == Sealing(c, true)
    || (pc.Writing? && pc.c == c && pc.isNew) || (pc.WantStamp? && pc.c == c && pc.isNew)
    || (pc.Stamping? && pc.c == c && pc.isNew)
    || pc == WantInsert(c) || pc == Inserting(c)
  }

  ghost predicate AllQuiet(s: State) {
    forall t :: 0 <= t < |s.tasks| ==> Quiet(s.tasks[t].pc)
  }

  ghost predicate OnePerPeer(s: State) {
    forall c, d :: 0 <= c < d < |s.conns| ==> s.conns[c].key != s.conns[d].key
  }

  /** In the pool, or with the call that opened it. */
  ghost predicate Kept(s: State, c: nat)
    requires c < |s.conns|
  {
    || (s.conns[c].key in s.pool && s.pool[s.conns[c].key] == c)
    || exists t :: 0 <= t < |s.tasks| && Carries(s.tasks[t].pc, c)
  }

  ghost predicate AllKept(s: State) {
    forall c :: 0 <= c < |s.conns| ==> Kept(s, c)
  }

  ghost predicate Unconnected(s: State, key: PoolKey) {
    forall c :: 0 <= c < |s.conns| ==> s.conns[c].key != key
  }

  /** A call that opens a connection, or has one of its own, is to a peer without an entry in the pool. */
  ghost predicate OwnIsNew(s: State) {
    forall t :: 0 <= t < |s.tasks| ==>
      && (s.tasks[t].pc.Opening? ==> Unconnected(s, s.tasks[t].key))
      && forall c :: Carries(s.tasks[t].pc, c) ==> s.tasks[t].key !in s.pool
  }

  ghost predicate PoolOfPeers(s: State) {
    s.pool.Keys <= Peers(s)
  }

  /** Every connection carries all calls to its peer, and a peer without one has had none. */
  ghost predicate CarriesAll(s: State, order: seq<nat>) {
    && (forall c :: 0 <= c < |s.conns| ==>
          !s.conns[c].broken && s.conns[c].good == CallsTo(s.tasks, order, s.conns[c].key))
    && (forall key :: Unconnected(s, key) ==> CallsTo(s.tasks, order, key) == [])
  }

  ghost predicate Tidy(s: State, order: seq<nat>) {
    AllQuiet(s) && OnePerPeer(s) && AllKept(s) && OwnIsNew(s) && PoolOfPeers(s) && CarriesAll(s, order)
  }

  // -------------------------------------------------------------- one smooth step

  /** A smooth step of a quiet call; one that inserts finds room. */
  ghost predicate Glides(s: State, step: Step, cfg: Config, e: Effect) {
    && Typed(s) && Enabled(s, step) && e == EffectOf(s, step, cfg) && Smooth(step)
    && Quiet(s.tasks[step.task].pc) && |s.tasks[step.task].packet| == PACKET_SIZE
    && (s.tasks[step.task].pc.Inserting? ==> |s.pool| < cfg.maxSize)
  }

  lemma StaysQuiet(s: State, step: Step, cfg: Config, e: Effect)
    requires Glides(s, step, cfg, e)
    ensures Quiet(e.pc)
  {
  }

  lemma CarrierGoesOn(s: State, step: Step, cfg: Config, e: Effect, c: nat)
    requires Glides(s, step, cfg, e) && Carries(s.tasks[step.task].pc, c)
    ensures || Carries(e.pc, c)
            || (s.tasks[step.task].pc == Inserting(c) && e.pool == s.pool[s.tasks[step.task].key := c])
  {
  }

  lemma NewCarrier(s: State, step: Step, cfg: Config, e: Effect, c: nat)
    requires Glides(s, step, cfg, e) && Carries(e.pc, c)
    ensures e.pool == s.pool
    ensures Carries(s.tasks[step.task].pc, c) || s.tasks[step.task].pc.Opening?
  {
  }

  lemma NewOpening(s: State, step: Step, cfg: Config, e: Effect)
    requires Glides(s, step, cfg, e) && e.pc.Opening?
    ensures s.tasks[step.task].pc.Looking? && s.tasks[step.task].key !in s.pool
    ensures e.conns == s.conns && e.pool == s.pool
  {
  }

  lemma PoolGrows(s: State, step: Step, cfg: Config, e: Effect)
    requires Glides(s, step, cfg, e)
    ensures var task := s.tasks[step.task];
            || e.pool == s.pool
            || (task.pc.Inserting? && e.pool == s.pool[task.key := task.pc.c] && e.conns == s.conns)
  {
  }

  /** The one connection that a step changes, and how. */
  ghost predicate StreamGoesOn(was: Conn, now: Conn, t: nat, completes: bool) {
    && now.key == was.key && now.broken == was.broken
    && (!was.broken ==> now.good == if completes then was.good + [t] else was.good)
  }

  lemma ConnsGoOn(s: State, step: Step, cfg: Config, e: Effect)
    requires Glides(s, step, cfg, e) && !step.action.Open?
    ensures |e.conns| == |s.conns|
    ensures forall c :: 0 <= c < |s.conns| ==>
              StreamGoesOn(s.conns[c], e.conns[c], step.task, Completes(s, step) && s.tasks[step.task].pc.c == c)
  {
    assert PcOk(s.conns, s.pool, s.tasks[step.task].key, s.tasks[step.task].pc);
  }

  lemma ConnOpens(s: State, step: Step, cfg: Config, e: Effect)
    requires Glides(s, step, cfg, e) && step.action.Open?
    ensures s.tasks[step.task].pc.Opening? && Carries(e.pc, |s.conns|) && e.pool == s.pool
    ensures |e.conns| == |s.conns| + 1 && e.conns[..|s.conns|] == s.conns
    ensures var conn := e.conns[|s.conns|]; conn.key == s.tasks[step.task].key && !conn.broken && conn.good == []
  {
  }

  // ------------------------------------------------- all that matters of such a step

  ghost predicate SameOthers(s: State, s': State, t: nat) {
    && |s'.tasks| == |s.tasks| && t < |s.tasks|
    && (forall u :: 0 <= u < |s.tasks| && u != t ==> s'.tasks[u] == s.tasks[u])
    && s'.tasks[t].key == s.tasks[t].key && s'.tasks[t].packet == s.tasks[t].packet
  }

  ghost predicate PoolGlides(s: State, s': State, t: nat)
    requires SameOthers(s, s', t)
  {
    var pc, pc', key := s.tasks[t].pc, s'.tasks[t].pc, s.tasks[t].key;
    && (s'.pool == s.pool || (pc.Inserting? && s'.pool == s.pool[key := pc.c] && s'.conns == s.conns))
    && (forall c :: Carries(pc, c) ==> Carries(pc', c) || (pc == Inserting(c) && s'.pool == s.pool[key := c]))
    && (forall c :: Carries(pc', c) ==> s'.pool == s.pool && (Carries(pc, c) || pc.Opening?))
    && (pc'.Opening? ==> pc.Looking? && key !in s.pool && s'.conns == s.conns && s'.pool == s.pool)
  }

  ghost predicate ConnsGlide(s: State, s': State, t: nat, completes: bool)
    requires SameOthers(s, s', t)
  {
    && |s'.conns| == |s.conns|
    && (completes ==> s.tasks[t].pc.Writing? && s.tasks[t].pc.c < |s.conns|
                      && s.conns[s.tasks[t].pc.c].key == s.tasks[t].key)
    && forall c :: 0 <= c < |s.conns| ==>
         StreamGoesOn(s.conns[c], s'.conns[c], t, completes && s.tasks[t].pc.c == c)
  }

  ghost predicate ConnJoins(s: State, s': State, t: nat)
    requires SameOthers(s, s', t)
  {
    && s.tasks[t].pc.Opening? && Carries(s'.tasks[t].pc, |s.conns|) && s'.pool == s.pool
    && |s'.conns| == |s.conns| + 1 && s'.conns[..|s.conns|] == s.conns
    && var conn := s'.conns[|s.conns|]; conn.key == s.tasks[t].key && !conn.broken && conn.good == []
  }

  ghost predicate Glided(s: State, s': State, t: nat, opens: bool, completes: bool) {
    && SameOthers(s, s', t) && PoolGlides(s, s', t)
    && if opens then ConnJoins(s, s', t) && !completes else ConnsGlide(s, s', t, completes)
  }

  lemma StepGlides(s: State, step: Step, cfg: Config, e: Effect, s': State)
    requires Glides(s, step, cfg, e) && s' == Next(s, step, cfg)
    ensures Glided(s, s', step.task, step.action.Open?, Completes(s, step))
    ensures Quiet(s'.tasks[step.task].pc)
  {
    var t := step.task;
    StaysQuiet(s, step, cfg, e);
    PoolGrows(s, step, cfg, e);
    forall c | Carries(s.tasks[t].pc, c)
      ensures Carries(e.pc, c) || (s.tasks[t].pc == Inserting(c) && e.pool == s.pool[s.tasks[t].key := c])
    {
      CarrierGoesOn(s, step, cfg, e, c);
    }
    forall c | Carries(e.pc, c) ensures e.pool == s.pool && (Carries(s.tasks[t].pc, c) || s.tasks[t].pc.Opening?) {
      NewCarrier(s, step, cfg, e, c);
    }
    if e.pc.Opening? {
      NewOpening(s, step, cfg, e);
    }
    if step.action.Open? {
      ConnOpens(s, step, cfg, e);
    } else {
      assert PcOk(s.conns, s.pool, s.tasks[t].key, s.tasks[t].pc);
      ConnsGoOn(s, step, cfg, e);
    }
  }

  // ------------------------------------------------------------------ it is kept

  lemma ProperSubset(a: set<PoolKey>, b: set<PoolKey>)
    requires a < b
    ensures |a| < |b|
  {
    assert b == (b - a) + a && |b| == |b - a| + |a|;
    assert b - a != {};
  }

  /** A call with a connection of its own finds room for it. */
  lemma InsertHasRoom(s: State, order: seq<nat>, cfg: Config, t: nat)
    requires Tidy(s, order) && Suits(s, cfg) && t < |s.tasks| && s.tasks[t].pc.Inserting?
    ensures |s.pool| < cfg.maxSize
  {
    assert Carries(s.tasks[t].pc, s.tasks[t].pc.c);
    assert s.pool.Keys < Peers(s) by {
      assert s.tasks[t].key in Peers(s);
    }
    assert |s.pool| == |s.pool.Keys|;
    ProperSubset(s.pool.Keys, Peers(s));
  }

  lemma OnePerPeerKept(s: State, s': State, t: nat, opens: bool, completes: bool)
    requires Glided(s, s', t, opens, completes) && OnePerPeer(s) && OwnIsNew(s)
    ensures OnePerPeer(s')
  {
    if opens {
      assert Unconnected(s, s.tasks[t].key);
      forall c, d | 0 <= c < d < |s'.conns| ensures s'.conns[c].key != s'.conns[d].key {
        assert s'.conns[..|s.conns|][c] == s.conns[c];
        if d < |s.conns| {
          assert s'.conns[..|s.conns|][d] == s.conns[d];
        }
      }
    } else {
      forall c, d | 0 <= c < d < |s'.conns| ensures s'.conns[c].key != s'.conns[d].key {
        assert StreamGoesOn(s.conns[c], s'.conns[c], t, completes && s.tasks[t].pc.c == c);
        assert StreamGoesOn(s.conns[d], s'.conns[d], t, completes && s.tasks[t].pc.c == d);
      }
    }
  }

  lemma KeyKept(s: State, s': State, t: nat, opens: bool, completes: bool, c: nat)
    requires Glided(s, s', t, opens, completes) && c < |s.conns|
    ensures c < |s'.conns| && s'.conns[c].key == s.conns[c].key
  {
    if opens {
      assert s'.conns[..|s.conns|][c] == s.conns[c];
    } else {
      assert StreamGoesOn(s.conns[c], s'.conns[c], t, completes && s.tasks[t].pc.c == c);
    }
  }

  /** What a call works on was opened to its peer. */
  lemma CarriedToPeer(s: State, t: nat, c: nat)
    requires Typed(s) && t < |s.tasks| && Carries(s.tasks[t].pc, c)
    ensures c < |s.conns| && s.conns[c].key == s.tasks[t].key && Busy(s.tasks[t].pc)
  {
    assert PcOk(s.conns, s.pool, s.tasks[t].key, s.tasks[t].pc);
  }

  lemma OldConnKept(s: State, s': State, t: nat, opens: bool, completes: bool, c: nat)
    requires Typed(s) && Glided(s, s', t, opens, completes) && OnePerPeer(s) && c < |s.conns| && Kept(s, c)
    ensures c < |s'.conns| && Kept(s', c)
  {
    KeyKept(s, s', t, opens, completes, c);
    var key := s.conns[c].key;
    if key in s.pool && s.pool[key] == c {
      if s'.pool != s.pool && key == s.tasks[t].key {
        CarriedToPeer(s, t, s.tasks[t].pc.c);
      }
    } else {
      var u :| 0 <= u < |s.tasks| && Carries(s.tasks[u].pc, c);
      CarriedToPeer(s, u, c);
      if u != t || Carries(s'.tasks[t].pc, c) {
        assert Carries(s'.tasks[u].pc, c);
      }
    }
  }

  lemma AllKeptKept(s: State, s': State, t: nat, opens: bool, completes: bool)
    requires Typed(s) && Glided(s, s', t, opens, completes) && OnePerPeer(s) && AllKept(s)
    ensures AllKept(s')
  {
    forall c | 0 <= c < |s'.conns| ensures Kept(s', c) {
      if c < |s.conns| {
        OldConnKept(s, s', t, opens, completes, c);
      } else {
        assert Carries(s'.tasks[t].pc, c);
      }
    }
  }

  /** Nobody but the call itself could have a connection to its peer that is not in the pool. */
  lemma AbsentIsUnconnected(s: State, t: nat)
    requires Typed(s) && AllKept(s) && NoOverlap(s) && t < |s.tasks| && s.tasks[t].pc.Looking?
    requires s.tasks[t].key !in s.pool
    ensures Unconnected(s, s.tasks[t].key)
  {
    forall c | 0 <= c < |s.conns| ensures s.conns[c].key != s.tasks[t].key {
      assert Kept(s, c);
      if !(s.conns[c].key in s.pool && s.pool[s.conns[c].key] == c) {
        var u :| 0 <= u < |s.tasks| && Carries(s.tasks[u].pc, c);
        CarriedToPeer(s, u, c);
        assert u != t && Busy(s.tasks[t].pc);
      }
    }
  }

  lemma OpeningStaysNew(s: State, s': State, t: nat, opens: bool, completes: bool, u: nat)
    requires Typed(s) && Glided(s, s', t, opens, completes) && AllKept(s) && NoOverlap(s) && OwnIsNew(s)
    requires u < |s.tasks| && s'.tasks[u].pc.Opening?
    ensures Unconnected(s', s'.tasks[u].key)
  {
    if u == t {
      AbsentIsUnconnected(s, t);
    } else {
      assert Unconnected(s, s.tasks[u].key);
      forall c | 0 <= c < |s'.conns| ensures s'.conns[c].key != s.tasks[u].key {
        if c < |s.conns| {
          KeyKept(s, s', t, opens, completes, c);
        } else {
          assert Busy(s.tasks[t].pc) && Busy(s.tasks[u].pc);
        }
      }
    }
  }

  lemma CarrierStaysNew(s: State, s': State, t: nat, opens: bool, completes: bool, u: nat, c: nat)
    requires Typed(s) && Glided(s, s', t, opens, completes) && NoOverlap(s) && OwnIsNew(s)
    requires u < |s.tasks| && Carries(s'.tasks[u].pc, c)
    ensures s'.tasks[u].key !in s'.pool
  {
    var key := s.tasks[u].key;
    if u == t {
      if s.tasks[t].pc.Opening? {
        assert Unconnected(s, key) && PoolOk(s.conns, s.pool);
      }
    } else {
      assert Carries(s.tasks[u].pc, c) && Busy(s.tasks[u].pc);
      if s'.pool != s.pool {
        assert Busy(s.tasks[t].pc);
      }
    }
  }

  lemma OwnIsNewKept(s: State, s': State, t: nat, opens: bool, completes: bool)
    requires Typed(s) && Glided(s, s', t, opens, completes) && AllKept(s) && NoOverlap(s) && OwnIsNew(s)
    ensures OwnIsNew(s')
  {
    forall u | 0 <= u < |s'.tasks| && s'.tasks[u].pc.Opening? ensures Unconnected(s', s'.tasks[u].key) {
      OpeningStaysNew(s, s', t, opens, completes, u);
    }
    forall u, c | 0 <= u < |s'.tasks| && Carries(s'.tasks[u].pc, c) ensures s'.tasks[u].key !in s'.pool {
      CarrierStaysNew(s, s', t, opens, completes, u, c);
    }
  }

  lemma PeersKept(s: State, s': State, t: nat)
    requires SameOthers(s, s', t)
    ensures Peers(s') == Peers(s)
  {
    forall k | k in Peers(s) ensures k in Peers(s') {
      var u :| 0 <= u < |s.tasks| && s.tasks[u].key == k;
      assert s'.tasks[u].key == k;
    }
  }

  lemma PoolOfPeersKept(s: State, s': State, t: nat)
    requires SameOthers(s, s', t) && PoolGlides(s, s', t) && PoolOfPeers(s)
    ensures PoolOfPeers(s')
  {
    PeersKept(s, s', t);
    assert s.tasks[t].key in Peers(s);
  }

  lemma {:induction false} CallsToSame(a: seq<Task>, b: seq<Task>, order: seq<nat>, key: PoolKey)
    requires SameCalls(a, b)
    ensures CallsTo(a, order, key) == CallsTo(b, order, key)
  {
    if order == [] {
    } else {
      CallsToSame(a, b, order[..|order| - 1], key);
    }
  }

  lemma CallsToNext(tasks: seq<Task>, order: seq<nat>, t: nat, key: PoolKey)
    requires t < |tasks|
    ensures CallsTo(tasks, order + [t], key) ==
            CallsTo(tasks, order, key) + if tasks[t].key == key then [t] else []
  {
    assert (order + [t])[..|order|] == order;
  }

  lemma CarriesAllOpened(s: State, s': State, t: nat, order: seq<nat>)
    requires Glided(s, s', t, true, false) && OwnIsNew(s) && CarriesAll(s, order)
    ensures CarriesAll(s', order)
  {
    assert SameCalls(s.tasks, s'.tasks) && Unconnected(s, s.tasks[t].key);
    forall c | 0 <= c < |s'.conns|
      ensures !s'.conns[c].broken && s'.conns[c].good == CallsTo(s'.tasks, order, s'.conns[c].key)
    {
      CallsToSame(s.tasks, s'.tasks, order, s'.conns[c].key);
      if c < |s.conns| {
        assert s'.conns[..|s.conns|][c] == s.conns[c];
      }
    }
    forall key | Unconnected(s', key) ensures CallsTo(s'.tasks, order, key) == [] {
      CallsToSame(s.tasks, s'.tasks, order, key);
      assert Unconnected(s, key) by {
        forall c | 0 <= c < |s.conns| ensures s.conns[c].key != key {
          assert s'.conns[..|s.conns|][c] == s.conns[c];
        }
      }
    }
  }

  lemma CarriesAllStill(s: State, s': State, t: nat, order: seq<nat>)
    requires Glided(s, s', t, false, false) && CarriesAll(s, order)
    ensures CarriesAll(s', order)
  {
    assert SameCalls(s.tasks, s'.tasks);
    forall c | 0 <= c < |s'.conns|
      ensures !s'.conns[c].broken && s'.conns[c].good == CallsTo(s'.tasks, order, s'.conns[c].key)
    {
      assert StreamGoesOn(s.conns[c], s'.conns[c], t, false);
      CallsToSame(s.tasks, s'.tasks, order, s'.conns[c].key);
    }
    forall key | Unconnected(s', key) ensures CallsTo(s'.tasks, order, key) == [] {
      CallsToSame(s.tasks, s'.tasks, order, key);
      assert Unconnected(s, key) by {
        forall c | 0 <= c < |s.conns| ensures s.conns[c].key != key {
          assert StreamGoesOn(s.conns[c], s'.conns[c], t, false);
        }
      }
    }
  }

  lemma CarriesAllCompleted(s: State, s': State, t: nat, order: seq<nat>)
    requires Glided(s, s', t, false, true) && OnePerPeer(s) && CarriesAll(s, order)
    ensures CarriesAll(s', order + [t])
  {
    var d := s.tasks[t].pc.c;
    assert SameCalls(s.tasks, s'.tasks);
    forall c | 0 <= c < |s'.conns|
      ensures !s'.conns[c].broken && s'.conns[c].good == CallsTo(s'.tasks, order + [t], s'.conns[c].key)
    {
      assert StreamGoesOn(s.conns[c], s'.conns[c], t, d == c);
      CallsToSame(s.tasks, s'.tasks, order, s'.conns[c].key);
      CallsToNext(s'.tasks, order, t, s'.conns[c].key);
    }
    forall key | Unconnected(s', key) ensures CallsTo(s'.tasks, order + [t], key) == [] {
      CallsToSame(s.tasks, s'.tasks, order, key);
      CallsToNext(s'.tasks, order, t, key);
      assert Unconnected(s, key) by {
        forall c | 0 <= c < |s.conns| ensures s.conns[c].key != key {
          assert StreamGoesOn(s.conns[c], s'.conns[c], t, d == c);
        }
      }
    }
  }

  lemma GlideIsTidy(s: State, order: seq<nat>, s': State, t: nat, opens: bool, completes: bool, cfg: Config)
    requires Typed(s) && Tidy(s, order) && Suits(s, cfg) && NoOverlap(s)
    requires Glided(s, s', t, opens, completes) && Quiet(s'.tasks[t].pc)
    ensures Tidy(s', if completes then order + [t] else order) && Suits(s', cfg)
  {
    OnePerPeerKept(s, s', t, opens, completes);
    AllKeptKept(s, s', t, opens, completes);
    OwnIsNewKept(s, s', t, opens, completes);
    PoolOfPeersKept(s, s', t);
    PeersKept(s, s', t);
    if opens {
      CarriesAllOpened(s, s', t, order);
    } else if completes {
      CarriesAllCompleted(s, s', t, order);
    } else {
      CarriesAllStill(s, s', t, order);
    }
  }

  lemma TidyKept(s: State, order: seq<nat>, step: Step, cfg: Config, s': State)
    requires Typed(s) && Tidy(s, order) && Suits(s, cfg) && NoOverlap(s)
    requires Enabled(s, step) && Smooth(step) && s' == Next(s, step, cfg)
    ensures Tidy(s', Ordered(order, s, step)) && Suits(s', cfg)
  {
    var t, opens, completes := step.task, step.action.Open?, Completes(s, step);
    if s.tasks[t].pc.Inserting? {
      InsertHasRoom(s, order, cfg, t);
    }
    StepGlides(s, step, cfg, EffectOf(s, step, cfg), s');
    GlideIsTidy(s, order, s', t, opens, completes, cfg);
  }

  // -------------------------------------------------------------------- runs

  lemma {:induction false} RunIsTidy(s: State, order: seq<nat>, run: seq<Step>, cfg: Config)
    requires Safe(s, cfg) && Proper(cfg) && ValidRun(s, run, cfg) && CalmRun(s, run, cfg)
    requires Tidy(s, order) && Suits(s, cfg)
    ensures Tidy(After(s, run, cfg), Order(s, run, cfg, order))
    decreases |run|
  {
    if run == [] {
    } else {
      StepIsSafe(s, run[0], cfg);
      TidyKept(s, order, run[0], cfg, Next(s, run[0], cfg));
      RunIsTidy(Next(s, run[0], cfg), Ordered(order, s, run[0]), run[1..], cfg);
    }
  }

  /** An interleaving without failures and without overlapping calls to one peer, with room for every peer. */
  ghost predicate Calm(s: State, run: seq<Step>, cfg: Config) {
    Interleaves(s, run, cfg) && Suits(s, cfg) && (InitialIsSafe(s, cfg); CalmRun(s, run, cfg))
  }

  ghost function OrderOf(s: State, run: seq<Step>, cfg: Config): seq<nat>
    requires Interleaves(s, run, cfg)
  {
    InitialIsSafe(s, cfg);
    Order(s, run, cfg, [])
  }

  lemma InitialIsTidy(s: State)
    requires Initial(s)
    ensures Tidy(s, [])
  {
  }

  lemma CalmIsTidy(s: State, run: seq<Step>, cfg: Config, r: State)
    requires Calm(s, run, cfg) && r == Reached(s, run, cfg)
    ensures Tidy(r, OrderOf(s, run, cfg)) && Reachable(cfg, r)
  {
    InitialIsSafe(s, cfg);
    InitialIsTidy(s);
    RunIsTidy(s, [], run, cfg);
  }

  /**
   One connection per peer: in every such interleaving the peer at the other end of a
   connection recovers from it the packets of all calls to that peer whose last byte is out,
   in the order in which they went out, and no other connection goes to that peer.
   */
  lemma OneConnectionPerPeer(s: State, run: seq<Step>, cfg: Config, c: nat)
    requires Calm(s, run, cfg) && c < |Reached(s, run, cfg).conns|
    ensures var r := Reached(s, run, cfg);
            && (forall d :: 0 <= d < |r.conns| && d != c ==> r.conns[d].key != r.conns[c].key)
            && ReadFrames(cfg.cipher(c), 0, r.conns[c].before)
               == Packets(r.tasks, CallsTo(r.tasks, OrderOf(s, run, cfg), r.conns[c].key))
  {
    var r := Reached(s, run, cfg);
    CalmIsTidy(s, run, cfg, r);
    WireOrder(cfg, r, c);
  }

  /** Every call of such an interleaving that is over has succeeded, and its peer's connection carries it. */
  lemma CalmCallsSucceed(s: State, run: seq<Step>, cfg: Config, t: nat) returns (c: nat)
    requires Calm(s, run, cfg) && t < |Reached(s, run, cfg).tasks| && Reached(s, run, cfg).tasks[t].pc.Finished?
    ensures var r := Reached(s, run, cfg);
            && r.tasks[t].pc == Finished(true) && c < |r.conns| && r.conns[c].key == r.tasks[t].key
            && t in CallsTo(r.tasks, OrderOf(s, run, cfg), r.tasks[t].key)
  {
    var r := Reached(s, run, cfg);
    CalmIsTidy(s, run, cfg, r);
    assert Quiet(r.tasks[t].pc);
    c := SuccessIsCarried(cfg, r, t);
    ReachableWire(cfg, r);
    CarriedWhole(cfg, r, c, t);
  }
}
